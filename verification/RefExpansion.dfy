/** Expansion of local `$ref`s in a document that may refer to itself: the recursive
    procedure with its shared, backtracking `seen` set, and the function it computes. */
module RefExpansion {
  import opened Text
  import opened Json
  import opened Pointer
  import opened Sets

  const REF := "$ref"
  const MARK := "x-circularRef"

  /** The pointer of an object that is a local reference. */
  function LocalRef(m: Fields): Option<string> {
    var raw := Field(m, REF);
    if raw.Str? then ReferenceToPointer(raw.s) else None
  }

  function Marker(m: Fields): Json {
    Json.Obj(map[MARK := Field(m, REF)])
  }

  /** All pointers that local references in `v` use. */
  ghost function RefPointers(v: Json): set<string> {
    match v
    case Obj(m) =>
      (if LocalRef(m).Some? then {LocalRef(m).value} else {}) + set k, p | k in m && p in RefPointers(m[k]) :: p
    case Arr(items) => set i, p | 0 <= i < |items| && p in RefPointers(items[i]) :: p
    case _ => {}
  }

  // ------------------------------------------------------------ the measure

  /** How many pointers of the document are still unseen. */
  ghost function Unseen(root: Json, seen: set<string>, v: Json): nat {
    |(RefPointers(root) + RefPointers(v)) - seen|
  }

  /** Going down into a part never adds unseen pointers. */
  lemma UnseenPart(root: Json, seen: set<string>, v: Json, part: Json)
    requires RefPointers(part) <= RefPointers(v)
    ensures Unseen(root, seen, part) <= Unseen(root, seen, v)
  {
    SubsetSize((RefPointers(root) + RefPointers(part)) - seen, (RefPointers(root) + RefPointers(v)) - seen);
  }

  /** Following an unseen reference uses one of them up. */
  lemma UnseenTarget(root: Json, seen: set<string>, v: Json, pointer: string, part: Json)
    requires pointer in RefPointers(v) && pointer !in seen
    requires RefPointers(part) <= RefPointers(root) + RefPointers(v)
    ensures Unseen(root, seen + {pointer}, part) < Unseen(root, seen, v)
  {
    var less := (RefPointers(root) + RefPointers(part)) - (seen + {pointer});
    var more := (RefPointers(root) + RefPointers(v)) - seen;
    assert pointer in more && pointer !in less;
    SubsetSize(less, more);
  }

  lemma OwnRef(m: Fields)
    requires LocalRef(m).Some?
    ensures LocalRef(m).value in RefPointers(Json.Obj(m))
  {
  }

  lemma LocalRefOf(m: Fields)
    requires REF in m && m[REF] == Str("#/a")
    ensures LocalRef(m) == Some("/a")
  {
    assert "#/a"[0] == '#' && "#/a"[2] == 'a' && "#/a"[..2] == "#/" && "#/a"[1..] == "/a";
    assert TrimLeft("#/a") == "#/a";
    assert TrimRight("#/a") == "#/a";
  }

  lemma FieldRefs(m: Fields, k: string)
    requires k in m
    ensures RefPointers(m[k]) <= RefPointers(Json.Obj(m))
  {
  }

  lemma ItemRefs(items: seq<Json>, i: nat)
    requires i < |items|
    ensures RefPointers(items[i]) <= RefPointers(Arr(items))
  {
  }

  lemma {:induction false} DescendRefs(node: Json, parts: seq<string>)
    requires Descend(node, parts).Some?
    ensures RefPointers(Descend(node, parts).value) <= RefPointers(node)
  {
    if parts != [] {
      ChildRefs(node, DecodeToken(parts[0]));
      DescendRefs(Child(node, DecodeToken(parts[0])).value, parts[1..]);
    }
  }

  lemma ChildRefs(node: Json, token: string)
    requires Child(node, token).Some?
    ensures RefPointers(Child(node, token).value) <= RefPointers(node)
  {
    match node
    case Obj(m) => FieldRefs(m, token);
    case Arr(items) => ItemRefs(items, Atoi(token).value);
  }

  /** What a pointer leads to refers only to what the document refers to. */
  lemma LookupRefs(root: Json, pointer: string)
    requires Lookup(root, pointer).Some?
    ensures RefPointers(Lookup(root, pointer).value) <= RefPointers(root)
  {
    if pointer != "" {
      DescendRefs(root, Split(TrimPrefix(pointer, "/"), '/'));
    }
  }

  // ---------------------------------------------------------------- expansion

  /** `resolveRefsInAny`: what a value expands to while the pointers in `seen` are open. */
  ghost function Expand(root: Json, seen: set<string>, v: Json): Json
    decreases Unseen(root, seen, v), v, 1
  {
    match v
    case Obj(m) =>
      var ref := LocalRef(m);
      if ref.None? then ExpandFields(root, seen, v)
      else if ref.value in seen then Marker(m)
      else
        var target := Lookup(root, ref.value);
        if target.None? then ExpandFields(root, seen, v)
        else
          var open := seen + {ref.value};
          LookupRefs(root, ref.value);
          UnseenTarget(root, seen, v, ref.value, target.value);
          var expanded := Expand(root, open, target.value);
          if |m| == 1 then expanded
          else if expanded.Obj? then
            UnseenTarget(root, seen, v, ref.value, v);
            Json.Obj(expanded.fields + (ExpandFields(root, open, v).fields - {REF}))
          else ExpandFields(root, seen, v)
    case Arr(items) =>
      Arr(seq(|items|, i requires 0 <= i < |items| =>
        ItemRefs(items, i);
        UnseenPart(root, seen, v, items[i]);
        Expand(root, seen, items[i])))
    case _ => v
  }

  /** Every field expanded on its own. */
  ghost function ExpandFields(root: Json, seen: set<string>, v: Json): (out: Json)
    requires v.Obj?
    ensures out.Obj? && out.fields.Keys == v.fields.Keys
    decreases Unseen(root, seen, v), v, 0
  {
    Json.Obj(map k | k in v.fields ::
      FieldRefs(v.fields, k);
      UnseenPart(root, seen, v, v.fields[k]);
      Expand(root, seen, v.fields[k]))
  }

  /** The shared set of open pointers. */
  class SeenSet {
    var items: set<string>

    constructor ()
      ensures items == {}
    {
      items := {};
    }
  }

  /** The procedure: it may follow map keys in any order, restores the shared set on
      every path, and computes `Expand`. */
  method ResolveRefs(value: Json, root: Json, seen: SeenSet) returns (out: Json)
    modifies seen
    ensures seen.items == old(seen.items)
    ensures out == Expand(root, old(seen.items), value)
    decreases Unseen(root, seen.items, value), value, 2
  {
    hide RefPointers, Unseen, LocalRef, Lookup;
    match value {
      case Obj(m) =>
        var ref := LocalRef(m);
        if ref.Some? {
          if ref.value in seen.items {
            return Marker(m);
          }
          var followed := FollowRef(value, ref.value, root, seen);
          if followed.Some? {
            return followed.value;
          }
        }
        var fields := ResolveFields(value, root, seen);
        out := Json.Obj(fields);
      case Arr(items) =>
        out := ResolveItems(items, root, seen);
      case _ =>
        out := value;
    }
  }

  /** The part of the procedure that opens a pointer; nothing when the reference stays. */
  method FollowRef(value: Json, pointer: string, root: Json, seen: SeenSet) returns (out: Option<Json>)
    requires value.Obj? && LocalRef(value.fields) == Some(pointer) && pointer !in seen.items
    modifies seen
    ensures seen.items == old(seen.items)
    ensures Expand(root, old(seen.items), value) ==
            if out.Some? then out.value else ExpandFields(root, old(seen.items), value)
    decreases Unseen(root, seen.items, value), value, 1
  {
    hide RefPointers, Unseen, LocalRef, Lookup;
    var m := value.fields;
    ghost var before := seen.items;
    OwnRef(m);
    seen.items := seen.items + {pointer};
    var resolved := LookupPointer(root, pointer);
    out := None;
    if resolved.Some? {
      LookupRefs(root, pointer);
      UnseenTarget(root, before, value, pointer, resolved.value);
      var expanded := ResolveRefs(resolved.value, root, seen);
      if |m| == 1 {
        out := Some(expanded);
      } else if expanded.Obj? {
        UnseenTarget(root, before, value, pointer, value);
        var siblings := ResolveFields(value, root, seen);
        out := Some(Json.Obj(expanded.fields + (siblings - {REF})));
      }
    }
    seen.items := seen.items - {pointer};
    assert seen.items == before;
  }

  method ResolveItems(items: seq<Json>, root: Json, seen: SeenSet) returns (out: Json)
    modifies seen
    ensures seen.items == old(seen.items)
    ensures out == Expand(root, old(seen.items), Arr(items))
    decreases Unseen(root, seen.items, Arr(items)), Arr(items), 0
  {
    hide RefPointers, Unseen, LocalRef, Lookup;
    var done: seq<Json> := [];
    for i := 0 to |items|
      invariant seen.items == old(seen.items)
      invariant |done| == i && forall j :: 0 <= j < i ==> done[j] == Expand(root, seen.items, items[j])
    {
      ItemRefs(items, i);
      UnseenPart(root, seen.items, Arr(items), items[i]);
      var item := ResolveRefs(items[i], root, seen);
      done := done + [item];
    }
    assert Expand(root, seen.items, Arr(items)).items == done;
    out := Arr(done);
  }

  method ResolveFields(value: Json, root: Json, seen: SeenSet) returns (out: Fields)
    requires value.Obj?
    modifies seen
    ensures seen.items == old(seen.items)
    ensures out == ExpandFields(root, old(seen.items), value).fields
    decreases Unseen(root, seen.items, value), value, 0
  {
    hide RefPointers, Unseen, LocalRef, Lookup;
    var m := value.fields;
    out := map[];
    var todo := m.Keys;
    while todo != {}
      invariant todo <= m.Keys && seen.items == old(seen.items)
      invariant out.Keys == m.Keys - todo
      invariant forall k :: k in out ==> out[k] == Expand(root, seen.items, m[k])
    {
      var k :| k in todo;
      FieldRefs(m, k);
      UnseenPart(root, seen.items, value, m[k]);
      var field := ResolveRefs(m[k], root, seen);
      out := out[k := field];
      todo := todo - {k};
    }
  }
}
