/** Reference expansion against plain unfolding, which knows no set of open pointers. */
module RefUnfolding {
  import opened Text
  import opened Json
  import opened Pointer
  import opened RefExpansion

  /** A document with a rank on its pointers; `uses` holds every pointer in play. */
  datatype Ranking = Ranking(root: Json, rank: string -> nat, uses: set<string>) {
    /** Every reference inside a target ranks below the pointer of the target. */
    ghost predicate Acyclic() {
      RefPointers(root) <= uses &&
      forall p :: p in uses && Lookup(root, p).Some? ==> Below(Lookup(root, p).value, rank(p))
    }

    ghost predicate Below(v: Json, bound: nat) {
      forall q :: q in RefPointers(v) ==> rank(q) < bound
    }

    /** `v` uses pointers in play, all ranked below the bound. */
    ghost predicate Covers(v: Json, bound: nat) {
      RefPointers(v) <= uses && Below(v, bound)
    }
  }

  lemma CoversField(d: Ranking, m: Fields, k: string, bound: nat)
    requires k in m && d.Covers(Json.Obj(m), bound)
    ensures d.Covers(m[k], bound)
  {
    FieldRefs(m, k);
  }

  lemma CoversItem(d: Ranking, items: seq<Json>, i: nat, bound: nat)
    requires i < |items| && d.Covers(Arr(items), bound)
    ensures d.Covers(items[i], bound)
  {
    ItemRefs(items, i);
  }

  lemma CoversTarget(d: Ranking, m: Fields, pointer: string, bound: nat)
    requires d.Acyclic() && d.Covers(Json.Obj(m), bound)
    requires LocalRef(m) == Some(pointer) && Lookup(d.root, pointer).Some?
    ensures d.rank(pointer) < bound
    ensures d.Covers(Lookup(d.root, pointer).value, d.rank(pointer))
  {
    OwnRef(m);
    LookupRefs(d.root, pointer);
  }

  /** Plain unfolding: every local reference with a target is replaced by the unfolding of
      the target, with its siblings laid over an object. */
  ghost function Unfold(d: Ranking, bound: nat, v: Json): Json
    requires d.Acyclic() && d.Covers(v, bound)
    decreases bound, v, 1
  {
    match v
    case Obj(m) =>
      var ref := LocalRef(m);
      if ref.None? || Lookup(d.root, ref.value).None? then UnfoldFields(d, bound, v)
      else
        CoversTarget(d, m, ref.value, bound);
        var unfolded := Unfold(d, d.rank(ref.value), Lookup(d.root, ref.value).value);
        if |m| == 1 then unfolded
        else if unfolded.Obj? then Json.Obj(unfolded.fields + (UnfoldFields(d, bound, v).fields - {REF}))
        else UnfoldFields(d, bound, v)
    case Arr(items) =>
      Arr(seq(|items|, i requires 0 <= i < |items| => CoversItem(d, items, i, bound); Unfold(d, bound, items[i])))
    case _ => v
  }

  ghost function UnfoldFields(d: Ranking, bound: nat, v: Json): (out: Json)
    requires v.Obj? && d.Acyclic() && d.Covers(v, bound)
    ensures out.Obj? && out.fields.Keys == v.fields.Keys
    decreases bound, v, 0
  {
    Json.Obj(map k | k in v.fields :: CoversField(d, v.fields, k, bound); Unfold(d, bound, v.fields[k]))
  }

  // ------------------------------------------------------------------- markers

  /** No object anywhere in the value carries the circularity marker. */
  ghost predicate Unmarked(v: Json) {
    match v
    case Obj(m) => MARK !in m && forall k :: k in m ==> Unmarked(m[k])
    case Arr(items) => forall i :: 0 <= i < |items| ==> Unmarked(items[i])
    case _ => true
  }

  /** The two values are the same, except below objects of the first that carry a marker. */
  ghost predicate AgreeUpToMarks(e: Json, u: Json)
    decreases e
  {
    match e
    case Obj(m) =>
      MARK in m || (u.Obj? && m.Keys == u.fields.Keys && forall k :: k in m ==> AgreeUpToMarks(m[k], u.fields[k]))
    case Arr(items) =>
      u.Arr? && |items| == |u.items| && forall i :: 0 <= i < |items| ==> AgreeUpToMarks(items[i], u.items[i])
    case _ => u == e
  }

  lemma {:induction false} UnmarkedAgree(e: Json, u: Json)
    requires AgreeUpToMarks(e, u) && Unmarked(e)
    ensures e == u
    decreases e
  {
    match e
    case Obj(m) =>
      forall k | k in m ensures m[k] == u.fields[k] {
        UnmarkedAgree(m[k], u.fields[k]);
      }
      assert m == u.fields;
    case Arr(items) =>
      forall i | 0 <= i < |items| ensures items[i] == u.items[i] {
        UnmarkedAgree(items[i], u.items[i]);
      }
      assert items == u.items;
    case _ =>
  }

  // ------------------------------------------------------------ the refinement

  /** On a ranked document, whatever is open, expansion agrees with plain unfolding
      everywhere except where it put a marker. */
  lemma {:induction false} ExpandAgrees(d: Ranking, bound: nat, seen: set<string>, v: Json)
    requires d.Acyclic() && d.Covers(v, bound)
    ensures AgreeUpToMarks(Expand(d.root, seen, v), Unfold(d, bound, v))
    decreases bound, v, 2
  {
    hide LocalRef, Lookup, RefPointers, Unseen;
    match v
    case Obj(m) =>
      var ref := LocalRef(m);
      FieldsAgree(d, bound, seen, v);
      if ref.Some? && ref.value !in seen && Lookup(d.root, ref.value).Some? {
        RefAgrees(d, bound, seen, v, ref.value);
      }
    case Arr(items) =>
      forall i | 0 <= i < |items| ensures d.Covers(items[i], bound) {
        CoversItem(d, items, i, bound);
      }
      forall i | 0 <= i < |items|
        ensures AgreeUpToMarks(Expand(d.root, seen, items[i]), Unfold(d, bound, items[i]))
      {
        ExpandAgrees(d, bound, seen, items[i]);
      }
    case _ =>
  }

  lemma {:induction false} RefAgrees(d: Ranking, bound: nat, seen: set<string>, v: Json, pointer: string)
    requires d.Acyclic() && d.Covers(v, bound) && v.Obj?
    requires LocalRef(v.fields) == Some(pointer) && pointer !in seen && Lookup(d.root, pointer).Some?
    ensures AgreeUpToMarks(Expand(d.root, seen, v), Unfold(d, bound, v))
    decreases bound, v, 1
  {
    hide LocalRef, Lookup, RefPointers, Unseen, AgreeUpToMarks;
    var target := Lookup(d.root, pointer).value;
    CoversTarget(d, v.fields, pointer, bound);
    ExpandAgrees(d, d.rank(pointer), seen + {pointer}, target);
    FieldsAgree(d, bound, seen, v);
    FieldsAgree(d, bound, seen + {pointer}, v);
    var expanded := Expand(d.root, seen + {pointer}, target);
    var unfolded := Unfold(d, d.rank(pointer), target);
    ShapesAgree(expanded, unfolded);
    if expanded.Obj? {
      var over := ExpandFields(d.root, seen + {pointer}, v).fields;
      if unfolded.Obj? {
        OverlayAgrees(expanded, unfolded, over, UnfoldFields(d, bound, v).fields);
      } else {
        MarkedAgrees(Json.Obj(expanded.fields + (over - {REF})), Unfold(d, bound, v));
      }
    }
  }

  lemma ShapesAgree(e: Json, u: Json)
    requires AgreeUpToMarks(e, u)
    ensures e.Obj? && !u.Obj? ==> MARK in e.fields
    ensures u.Obj? ==> e.Obj?
  {
  }

  lemma MarkedAgrees(e: Json, u: Json)
    requires e.Obj? && MARK in e.fields
    ensures AgreeUpToMarks(e, u)
  {
  }

  lemma OverlayAgrees(e: Json, u: Json, eFields: Fields, uFields: Fields)
    requires e.Obj? && u.Obj? && AgreeUpToMarks(e, u) && eFields.Keys == uFields.Keys
    requires forall k :: k in eFields ==> AgreeUpToMarks(eFields[k], uFields[k])
    ensures AgreeUpToMarks(Json.Obj(e.fields + (eFields - {REF})), Json.Obj(u.fields + (uFields - {REF})))
  {
    hide AgreeUpToMarks;
    var a, b := e.fields + (eFields - {REF}), u.fields + (uFields - {REF});
    if MARK in a {
      MarkedAgrees(Json.Obj(a), Json.Obj(b));
    } else {
      SameFields(e, u);
      forall k | k in a ensures k in b && AgreeUpToMarks(a[k], b[k]) {
        assert a[k] == if k in eFields && k != REF then eFields[k] else e.fields[k];
        assert b[k] == if k in uFields && k != REF then uFields[k] else u.fields[k];
      }
      FieldsSame(Json.Obj(a), Json.Obj(b));
    }
  }

  lemma SameFields(e: Json, u: Json)
    requires e.Obj? && u.Obj? && AgreeUpToMarks(e, u) && MARK !in e.fields
    ensures e.fields.Keys == u.fields.Keys && forall k :: k in e.fields ==> AgreeUpToMarks(e.fields[k], u.fields[k])
  {
  }

  lemma FieldsSame(e: Json, u: Json)
    requires e.Obj? && u.Obj? && e.fields.Keys == u.fields.Keys
    requires forall k :: k in e.fields ==> AgreeUpToMarks(e.fields[k], u.fields[k])
    ensures AgreeUpToMarks(e, u)
  {
  }

  lemma {:induction false} FieldsAgree(d: Ranking, bound: nat, seen: set<string>, v: Json)
    requires d.Acyclic() && d.Covers(v, bound) && v.Obj?
    ensures forall k :: k in v.fields ==>
              AgreeUpToMarks(ExpandFields(d.root, seen, v).fields[k], UnfoldFields(d, bound, v).fields[k])
    ensures AgreeUpToMarks(ExpandFields(d.root, seen, v), UnfoldFields(d, bound, v))
    decreases bound, v, 0
  {
    hide LocalRef, Lookup, RefPointers, Unseen;
    forall k | k in v.fields
      ensures AgreeUpToMarks(ExpandFields(d.root, seen, v).fields[k], UnfoldFields(d, bound, v).fields[k])
    {
      CoversField(d, v.fields, k, bound);
      ExpandAgrees(d, bound, seen, v.fields[k]);
    }
  }

  // ----------------------------------------------------- no marker, no difference

  lemma {:induction false} DescendUnmarked(node: Json, parts: seq<string>)
    requires Unmarked(node) && Descend(node, parts).Some?
    ensures Unmarked(Descend(node, parts).value)
  {
    if parts != [] {
      DescendUnmarked(Child(node, DecodeToken(parts[0])).value, parts[1..]);
    }
  }

  lemma LookupUnmarked(root: Json, pointer: string)
    requires Unmarked(root) && Lookup(root, pointer).Some?
    ensures Unmarked(Lookup(root, pointer).value)
  {
    if pointer != "" {
      DescendUnmarked(root, Split(TrimPrefix(pointer, "/"), '/'));
    }
  }

  /** Plain unfolding never makes a marker. */
  lemma {:induction false} UnfoldUnmarked(d: Ranking, bound: nat, v: Json)
    requires d.Acyclic() && d.Covers(v, bound) && Unmarked(d.root) && Unmarked(v)
    ensures Unmarked(Unfold(d, bound, v))
    decreases bound, v, 1
  {
    hide LocalRef, Lookup, RefPointers;
    match v
    case Obj(m) =>
      var ref := LocalRef(m);
      UnfoldFieldsUnmarked(d, bound, v);
      if ref.Some? && Lookup(d.root, ref.value).Some? {
        CoversTarget(d, m, ref.value, bound);
        LookupUnmarked(d.root, ref.value);
        UnfoldUnmarked(d, d.rank(ref.value), Lookup(d.root, ref.value).value);
        var unfolded := Unfold(d, d.rank(ref.value), Lookup(d.root, ref.value).value);
        if unfolded.Obj? {
          OverlayUnmarked(unfolded.fields, UnfoldFields(d, bound, v).fields);
        }
      }
    case Arr(items) =>
      forall i | 0 <= i < |items| ensures d.Covers(items[i], bound) {
        CoversItem(d, items, i, bound);
      }
      forall i | 0 <= i < |items| ensures Unmarked(Unfold(d, bound, items[i])) {
        UnfoldUnmarked(d, bound, items[i]);
      }
    case _ =>
  }

  lemma OverlayUnmarked(base: Fields, over: Fields)
    requires Unmarked(Json.Obj(base)) && Unmarked(Json.Obj(over))
    ensures Unmarked(Json.Obj(base + (over - {REF})))
  {
  }

  lemma {:induction false} UnfoldFieldsUnmarked(d: Ranking, bound: nat, v: Json)
    requires d.Acyclic() && d.Covers(v, bound) && Unmarked(d.root) && Unmarked(v) && v.Obj?
    ensures Unmarked(UnfoldFields(d, bound, v))
    decreases bound, v, 0
  {
    hide LocalRef, Lookup, RefPointers;
    forall k | k in v.fields ensures Unmarked(UnfoldFields(d, bound, v).fields[k]) {
      CoversField(d, v.fields, k, bound);
      UnfoldUnmarked(d, bound, v.fields[k]);
    }
  }

  /** On a ranked document that holds no markers itself, expansion equals plain
      unfolding exactly when it introduces no marker. */
  lemma ExpandExact(d: Ranking, bound: nat, seen: set<string>, v: Json)
    requires d.Acyclic() && d.Covers(v, bound) && Unmarked(d.root) && Unmarked(v)
    ensures Expand(d.root, seen, v) == Unfold(d, bound, v) <==> Unmarked(Expand(d.root, seen, v))
  {
    ExpandAgrees(d, bound, seen, v);
    UnfoldUnmarked(d, bound, v);
    if Unmarked(Expand(d.root, seen, v)) {
      UnmarkedAgree(Expand(d.root, seen, v), Unfold(d, bound, v));
    }
  }

  // ------------------------------------------------ when no marker is introduced

  /** The references beside a reference rank below it, everywhere in `v`. */
  ghost predicate SiblingsBelow(rank: string -> nat, v: Json) {
    match v
    case Obj(m) =>
      && (LocalRef(m).Some? ==>
            forall k, q :: k in m && k != REF && q in RefPointers(m[k]) ==> rank(q) < rank(LocalRef(m).value))
      && forall k :: k in m ==> SiblingsBelow(rank, m[k])
    case Arr(items) => forall i :: 0 <= i < |items| ==> SiblingsBelow(rank, items[i])
    case _ => true
  }

  lemma {:induction false} DescendSiblings(rank: string -> nat, node: Json, parts: seq<string>)
    requires SiblingsBelow(rank, node) && Descend(node, parts).Some?
    ensures SiblingsBelow(rank, Descend(node, parts).value)
  {
    hide LocalRef, RefPointers;
    if parts != [] {
      DescendSiblings(rank, Child(node, DecodeToken(parts[0])).value, parts[1..]);
    }
  }

  lemma LookupSiblings(rank: string -> nat, root: Json, pointer: string)
    requires SiblingsBelow(rank, root) && Lookup(root, pointer).Some?
    ensures SiblingsBelow(rank, Lookup(root, pointer).value)
  {
    if pointer != "" {
      DescendSiblings(rank, root, Split(TrimPrefix(pointer, "/"), '/'));
    }
  }

  /** Open pointers all rank at least as high as what is still to be expanded. */
  ghost predicate OpenAbove(d: Ranking, seen: set<string>, bound: nat) {
    forall p :: p in seen ==> d.rank(p) >= bound
  }

  /** When siblings also rank below the reference they sit beside, expansion is plain
      unfolding and introduces no marker. */
  lemma {:induction false} ExpandIsUnfold(d: Ranking, bound: nat, seen: set<string>, v: Json)
    requires d.Acyclic() && d.Covers(v, bound) && OpenAbove(d, seen, bound)
    requires SiblingsBelow(d.rank, d.root) && SiblingsBelow(d.rank, v)
    ensures Expand(d.root, seen, v) == Unfold(d, bound, v)
    decreases bound, v, 2
  {
    hide LocalRef, Lookup, RefPointers, Unseen, SiblingsBelow;
    match v
    case Obj(m) =>
      var ref := LocalRef(m);
      if ref.None? || Lookup(d.root, ref.value).None? {
        NotOpen(d, bound, seen, m);
        FieldsUnfold(d, bound, seen, v);
      } else {
        RefUnfolds(d, bound, seen, v, ref.value);
      }
    case Arr(items) =>
      forall i | 0 <= i < |items| ensures d.Covers(items[i], bound) {
        CoversItem(d, items, i, bound);
      }
      forall i | 0 <= i < |items| ensures Expand(d.root, seen, items[i]) == Unfold(d, bound, items[i]) {
        ItemSiblings(d.rank, items, i);
        ExpandIsUnfold(d, bound, seen, items[i]);
      }
    case _ =>
  }

  lemma NotOpen(d: Ranking, bound: nat, seen: set<string>, m: Fields)
    requires d.Covers(Json.Obj(m), bound) && OpenAbove(d, seen, bound)
    ensures LocalRef(m).Some? ==> LocalRef(m).value !in seen && d.rank(LocalRef(m).value) < bound
  {
    if LocalRef(m).Some? {
      OwnRef(m);
    }
  }

  lemma ItemSiblings(rank: string -> nat, items: seq<Json>, i: nat)
    requires i < |items| && SiblingsBelow(rank, Arr(items))
    ensures SiblingsBelow(rank, items[i])
  {
  }

  lemma FieldSiblings(rank: string -> nat, m: Fields, k: string)
    requires k in m && SiblingsBelow(rank, Json.Obj(m))
    ensures SiblingsBelow(rank, m[k])
    ensures LocalRef(m).Some? && k != REF ==> forall q :: q in RefPointers(m[k]) ==> q != LocalRef(m).value && rank(q) < rank(LocalRef(m).value)
  {
  }

  lemma {:induction false} FieldsUnfold(d: Ranking, bound: nat, seen: set<string>, v: Json)
    requires d.Acyclic() && d.Covers(v, bound) && OpenAbove(d, seen, bound) && v.Obj?
    requires SiblingsBelow(d.rank, d.root) && SiblingsBelow(d.rank, v)
    ensures ExpandFields(d.root, seen, v) == UnfoldFields(d, bound, v)
    decreases bound, v, 0
  {
    hide LocalRef, Lookup, RefPointers, Unseen, SiblingsBelow;
    forall k | k in v.fields ensures ExpandFields(d.root, seen, v).fields[k] == UnfoldFields(d, bound, v).fields[k] {
      CoversField(d, v.fields, k, bound);
      FieldSiblings(d.rank, v.fields, k);
      ExpandIsUnfold(d, bound, seen, v.fields[k]);
    }
    assert ExpandFields(d.root, seen, v).fields == UnfoldFields(d, bound, v).fields;
  }

  /** Beside an open reference the siblings expand as if it were not open. */
  lemma {:induction false} SiblingsUnfold(d: Ranking, bound: nat, seen: set<string>, v: Json, pointer: string)
    requires d.Acyclic() && d.Covers(v, bound) && OpenAbove(d, seen, bound) && v.Obj?
    requires SiblingsBelow(d.rank, d.root) && SiblingsBelow(d.rank, v)
    requires LocalRef(v.fields) == Some(pointer) && d.rank(pointer) < bound
    ensures ExpandFields(d.root, seen + {pointer}, v).fields - {REF} == UnfoldFields(d, bound, v).fields - {REF}
    decreases bound, v, 0
  {
    hide LocalRef, Lookup, RefPointers, Unseen, SiblingsBelow;
    var e, u := ExpandFields(d.root, seen + {pointer}, v).fields, UnfoldFields(d, bound, v).fields;
    forall k | k in v.fields && k != REF ensures e[k] == u[k] {
      var field := v.fields[k];
      CoversField(d, v.fields, k, bound);
      FieldSiblings(d.rank, v.fields, k);
      assert d.Covers(field, d.rank(pointer));
      ExpandIsUnfold(d, d.rank(pointer), seen + {pointer}, field);
      UnfoldBound(d, d.rank(pointer), bound, field);
    }
  }

  /** The bound only serves termination. */
  lemma {:induction false} UnfoldBound(d: Ranking, low: nat, high: nat, v: Json)
    requires d.Acyclic() && d.Covers(v, low) && low <= high
    ensures d.Covers(v, high) && Unfold(d, low, v) == Unfold(d, high, v)
    decreases v, 1
  {
    hide LocalRef, Lookup, RefPointers;
    assert d.Covers(v, high);
    match v
    case Obj(m) =>
      UnfoldFieldsBound(d, low, high, v);
    case Arr(items) =>
      forall i | 0 <= i < |items| ensures d.Covers(items[i], low) && d.Covers(items[i], high) {
        CoversItem(d, items, i, low);
        CoversItem(d, items, i, high);
      }
      forall i | 0 <= i < |items| ensures Unfold(d, low, items[i]) == Unfold(d, high, items[i]) {
        UnfoldBound(d, low, high, items[i]);
      }
    case _ =>
  }

  lemma {:induction false} UnfoldFieldsBound(d: Ranking, low: nat, high: nat, v: Json)
    requires d.Acyclic() && d.Covers(v, low) && d.Covers(v, high) && low <= high && v.Obj?
    ensures UnfoldFields(d, low, v) == UnfoldFields(d, high, v)
    decreases v, 0
  {
    hide LocalRef, Lookup, RefPointers;
    var a, b := UnfoldFields(d, low, v).fields, UnfoldFields(d, high, v).fields;
    forall k | k in v.fields ensures a[k] == b[k] {
      CoversField(d, v.fields, k, low);
      CoversField(d, v.fields, k, high);
      UnfoldBound(d, low, high, v.fields[k]);
    }
    assert a == b;
  }

  lemma {:induction false} RefUnfolds(d: Ranking, bound: nat, seen: set<string>, v: Json, pointer: string)
    requires d.Acyclic() && d.Covers(v, bound) && OpenAbove(d, seen, bound) && v.Obj?
    requires SiblingsBelow(d.rank, d.root) && SiblingsBelow(d.rank, v)
    requires LocalRef(v.fields) == Some(pointer) && Lookup(d.root, pointer).Some?
    ensures Expand(d.root, seen, v) == Unfold(d, bound, v)
    decreases bound, v, 1
  {
    hide LocalRef, Lookup, RefPointers, Unseen, SiblingsBelow;
    var target := Lookup(d.root, pointer).value;
    NotOpen(d, bound, seen, v.fields);
    CoversTarget(d, v.fields, pointer, bound);
    LookupSiblings(d.rank, d.root, pointer);
    ExpandIsUnfold(d, d.rank(pointer), seen + {pointer}, target);
    FieldsUnfold(d, bound, seen, v);
    SiblingsUnfold(d, bound, seen, v, pointer);
  }
}
