/** The rules of reference expansion one by one, said of the document's own keys: what counts as
    a local reference, what stands for one that is open, and what its siblings become. */
module RefRules {
  import opened Text
  import opened Json
  import opened Pointer
  import opened RefExpansion
  import opened Sets

  /** The object is a reference to this pointer: a text under `$ref` that starts with `#/` after
      trimming. */
  predicate RefersTo(m: Fields, pointer: string) {
    "$ref" in m && m["$ref"].Str? && TrimSpace(m["$ref"].s) == "#" + pointer && pointer != "" && pointer[0] == '/'
  }

  lemma LocalRefMeans(m: Fields, pointer: string)
    ensures LocalRef(m) == Some(pointer) <==> RefersTo(m, pointer)
  {
    hide TrimSpace;
    if "$ref" in m && m["$ref"].Str? {
      var text := TrimSpace(m["$ref"].s);
      if "#/" <= text {
        assert text[0] == '#' && text[1] == '/' && text == "#" + text[1..];
      }
      if text == "#" + pointer && pointer != "" && pointer[0] == '/' {
        assert text[0] == '#' && text[1] == '/' && text[..2] == "#/" && text[1..] == pointer;
      }
    }
  }

  /** A reference that is open already becomes a marker with its text. */
  lemma OpenReference(root: Json, seen: set<string>, m: Fields, pointer: string)
    requires RefersTo(m, pointer) && pointer in seen
    ensures Expand(root, seen, Json.Obj(m)) == Json.Obj(map["x-circularRef" := m["$ref"]])
  {
    LocalRefMeans(m, pointer);
    assert Field(m, "$ref") == m["$ref"];
    hide LocalRef, Unseen, RefPointers, Lookup, RefersTo;
  }

  /** Field by field, with the same pointers open. */
  ghost predicate EachExpanded(root: Json, seen: set<string>, m: Fields, out: Json) {
    out.Obj? && out.fields.Keys == m.Keys && forall k :: k in m ==> out.fields[k] == Expand(root, seen, m[k])
  }

  /** What is no reference, or has no target, is expanded field by field. */
  lemma KeptObject(root: Json, seen: set<string>, m: Fields)
    requires forall pointer :: RefersTo(m, pointer) ==> pointer !in seen && Lookup(root, pointer).None?
    ensures EachExpanded(root, seen, m, Expand(root, seen, Json.Obj(m)))
  {
    hide Unseen, RefPointers, Lookup, LocalRef, RefersTo;
    if LocalRef(m).Some? {
      LocalRefMeans(m, LocalRef(m).value);
    }
  }

  /** A reference without siblings is replaced by what its target expands to while it is open. */
  lemma LoneReference(root: Json, seen: set<string>, m: Fields, pointer: string)
    requires RefersTo(m, pointer) && pointer !in seen && Lookup(root, pointer).Some? && m.Keys == {"$ref"}
    ensures Expand(root, seen, Json.Obj(m)) == Expand(root, seen + {pointer}, Lookup(root, pointer).value)
  {
    LocalRefMeans(m, pointer);
    hide LocalRef, Unseen, RefPointers, Lookup, RefersTo;
    assert |m| == |m.Keys|;
  }

  /** Siblings prevail over the fields of the target; they are expanded while it is open. */
  lemma SiblingsOverObject(root: Json, seen: set<string>, m: Fields, pointer: string)
    requires RefersTo(m, pointer) && pointer !in seen && Lookup(root, pointer).Some? && m.Keys != {"$ref"}
    requires Expand(root, seen + {pointer}, Lookup(root, pointer).value).Obj?
    ensures var out, target := Expand(root, seen, Json.Obj(m)), Expand(root, seen + {pointer}, Lookup(root, pointer).value);
            && out.Obj?
            && (forall k :: k in out.fields <==> k in target.fields || (k in m && k != "$ref"))
            && (forall k :: k in m && k != "$ref" ==> k in out.fields && out.fields[k] == Expand(root, seen + {pointer}, m[k]))
            && (forall k :: k in target.fields && (k !in m || k == "$ref") ==> k in out.fields && out.fields[k] == target.fields[k])
  {
    LocalRefMeans(m, pointer);
    MoreThanOne(m);
    hide LocalRef, Unseen, RefPointers, Lookup, RefersTo;
    var target, siblings := Expand(root, seen + {pointer}, Lookup(root, pointer).value), ExpandFields(root, seen + {pointer}, Json.Obj(m));
    assert Expand(root, seen, Json.Obj(m)) == Json.Obj(target.fields + (siblings.fields - {"$ref"}));
  }

  lemma MoreThanOne(m: Fields)
    requires "$ref" in m && m.Keys != {"$ref"}
    ensures |m| != 1
  {
    var k :| k in m && k != "$ref";
    SubsetSize({"$ref", k}, m.Keys);
    assert |m| == |m.Keys|;
  }

  /** Over anything else there is nothing to lay siblings over, and the reference stays. */
  lemma SiblingsOverOther(root: Json, seen: set<string>, m: Fields, pointer: string)
    requires RefersTo(m, pointer) && pointer !in seen && Lookup(root, pointer).Some? && m.Keys != {"$ref"}
    requires !Expand(root, seen + {pointer}, Lookup(root, pointer).value).Obj?
    ensures EachExpanded(root, seen, m, Expand(root, seen, Json.Obj(m)))
  {
    LocalRefMeans(m, pointer);
    MoreThanOne(m);
    hide LocalRef, Unseen, RefPointers, Lookup, RefersTo;
  }

  /** Lists are expanded item by item, and everything else stays. */
  lemma OtherValues(root: Json, seen: set<string>, v: Json)
    requires !v.Obj?
    ensures var out := Expand(root, seen, v);
            if v.Arr? then
              out.Arr? && |out.items| == |v.items| && forall i :: 0 <= i < |v.items| ==> out.items[i] == Expand(root, seen, v.items[i])
            else out == v
  {
    hide LocalRef, Unseen, RefPointers, Lookup;
  }
}
