/** Deep merging of JSON objects and the overrides applied to a generated body. */
module Overrides {
  import opened Text
  import opened Json

  /** The object `patch` laid over `base`. */
  function Merge(base: Fields, patch: Json): (out: Fields)
    requires patch.Obj?
    ensures out.Keys == base.Keys + patch.fields.Keys
    decreases patch, 1
  {
    map k | k in base.Keys + patch.fields.Keys :: MergedField(base, patch, k)
  }

  /** One key of a merge: objects merge, anything else is replaced by the patch. */
  function MergedField(base: Fields, patch: Json, k: string): Json
    requires patch.Obj? && k in base.Keys + patch.fields.Keys
    decreases patch, 0
  {
    if k !in patch.fields then Clone(base[k])
    else if k in base && base[k].Obj? && patch.fields[k].Obj? then
      Json.Obj(Merge(Clone(base[k]).fields, patch.fields[k]))
    else Clone(patch.fields[k])
  }

  /** `deepMergeMaps`: clone the base, then take the patch key by key in any order. */
  method DeepMergeMaps(base: Fields, patch: Json) returns (out: Fields)
    requires patch.Obj?
    ensures out == Merge(base, patch)
    decreases patch, 1
  {
    out := Clone(Json.Obj(base)).fields;
    var todo := patch.fields.Keys;
    while todo != {}
      invariant todo <= patch.fields.Keys
      invariant out.Keys == base.Keys + (patch.fields.Keys - todo)
      invariant forall k :: k in todo && k in base ==> out[k] == Clone(base[k])
      invariant forall k :: k in out && k !in todo ==> out[k] == MergedField(base, patch, k)
    {
      var key :| key in todo;
      var value := MergeValue(base, patch, key, if key in out then Some(out[key]) else None);
      out := out[key := value];
      todo := todo - {key};
    }
    assert forall k :: k in out ==> out[k] == MergedField(base, patch, k);
  }

  /** One step of the loop: `current` is what the cloned base holds under the key. */
  method MergeValue(ghost base: Fields, patch: Json, key: string, current: Option<Json>) returns (value: Json)
    requires patch.Obj? && key in patch.fields
    requires current == if key in base then Some(Clone(base[key])) else None
    ensures value == MergedField(base, patch, key)
    decreases patch, 0
  {
    var patchValue := patch.fields[key];
    if current.Some? && patchValue.Obj? && current.value.Obj? {
      var merged := DeepMergeMaps(current.value.fields, patchValue);
      return Json.Obj(merged);
    }
    return Clone(patchValue);
  }

  /** `mergePayloadOverrides`. */
  function ApplyOverrides(body: Json, overrides: Fields): Json {
    if overrides == map[] then body
    else if !body.Obj? then Clone(Json.Obj(overrides))
    else Json.Obj(Merge(body.fields, Json.Obj(overrides)))
  }

  // ----------------------------------------------------------- what a merge means

  /** The value under a path of object keys. */
  ghost function At(v: Json, path: seq<string>): Option<Json> {
    if path == [] then Some(v)
    else if v.Obj? && path[0] in v.fields then At(v.fields[path[0]], path[1..])
    else None
  }

  /** The patch says something at the path, on the way to it, or below it. */
  ghost predicate Touches(patch: Json, path: seq<string>) {
    path == [] || !patch.Obj? || (path[0] in patch.fields && Touches(patch.fields[path[0]], path[1..]))
  }

  lemma {:induction false} AtClone(v: Json, path: seq<string>)
    ensures At(Clone(v), path) == match At(v, path) case None => None case Some(x) => Some(Clone(x))
  {
    if path != [] && v.Obj? && path[0] in v.fields {
      AtClone(v.fields[path[0]], path[1..]);
    }
  }

  lemma {:induction false} CloneIdempotent(v: Json)
    ensures Clone(Clone(v)) == Clone(v)
  {
    CloneFacts(v);
    CloneFacts(Clone(v));
  }

  /** Every patch path that ends in a non-object holds the patch's value. */
  lemma {:induction false} PatchWins(base: Fields, patch: Json, path: seq<string>)
    requires patch.Obj? && path != []
    requires At(patch, path).Some? && !At(patch, path).value.Obj?
    ensures At(Json.Obj(Merge(base, patch)), path) == Some(Clone(At(patch, path).value))
    decreases path
  {
    var k, rest := path[0], path[1..];
    if k in base && base[k].Obj? && patch.fields[k].Obj? {
      PatchWins(Clone(base[k]).fields, patch.fields[k], rest);
    } else {
      AtClone(patch.fields[k], rest);
    }
  }

  /** Every base path that the patch does not touch keeps its value. */
  lemma {:induction false} UntouchedKept(base: Fields, patch: Json, path: seq<string>)
    requires patch.Obj? && At(Json.Obj(base), path).Some? && !Touches(patch, path)
    ensures At(Json.Obj(Merge(base, patch)), path) == Some(Clone(At(Json.Obj(base), path).value))
    decreases path
  {
    var k, rest := path[0], path[1..];
    if k in patch.fields {
      AtClone(base[k], rest);
      UntouchedKept(Clone(base[k]).fields, patch.fields[k], rest);
      CloneIdempotent(At(base[k], rest).value);
    } else {
      AtClone(base[k], rest);
    }
  }

  /** Nothing else appears: a non-object in the result comes from the patch, or from
      a base path that the patch does not touch. */
  lemma {:induction false} MergeOrigin(base: Fields, patch: Json, path: seq<string>)
    requires patch.Obj? && path != []
    requires At(Json.Obj(Merge(base, patch)), path).Some? && !At(Json.Obj(Merge(base, patch)), path).value.Obj?
    ensures
      var leaf := At(Json.Obj(Merge(base, patch)), path).value;
      (exists x :: At(patch, path) == Some(x) && leaf == Clone(x)) ||
      (!Touches(patch, path) && exists x :: At(Json.Obj(base), path) == Some(x) && leaf == Clone(x))
    decreases path
  {
    var k, rest := path[0], path[1..];
    if k !in patch.fields {
      AtClone(base[k], rest);
      assert At(Json.Obj(base), path) == At(base[k], rest);
    } else if k in base && base[k].Obj? && patch.fields[k].Obj? {
      MergeOrigin(Clone(base[k]).fields, patch.fields[k], rest);
      AtClone(base[k], rest);
      assert At(patch, path) == At(patch.fields[k], rest);
      assert At(Json.Obj(base), path) == At(base[k], rest);
      if At(base[k], rest).Some? {
        CloneIdempotent(At(base[k], rest).value);
      }
    } else {
      AtClone(patch.fields[k], rest);
      assert At(patch, path) == At(patch.fields[k], rest);
    }
  }

  /** Laying the same patch over the result again changes nothing. */
  lemma {:induction false} MergeIdempotent(base: Fields, patch: Json)
    requires patch.Obj?
    ensures Merge(Merge(base, patch), patch) == Merge(base, patch)
    decreases patch, 1
  {
    var once := Merge(base, patch);
    forall k | k in once
      ensures MergedField(once, patch, k) == once[k]
    {
      MergedFieldIdempotent(base, patch, k);
    }
  }

  lemma {:induction false} MergedFieldIdempotent(base: Fields, patch: Json, k: string)
    requires patch.Obj? && k in base.Keys + patch.fields.Keys
    ensures MergedField(Merge(base, patch), patch, k) == MergedField(base, patch, k)
    decreases patch, 0
  {
    if k !in patch.fields {
      CloneIdempotent(base[k]);
    } else if patch.fields[k].Obj? {
      CloneIdempotent(patch.fields[k]);
      if k in base && base[k].Obj? {
        var inner := Clone(base[k]).fields;
        MergePlain(inner, patch.fields[k]);
        MergeIdempotent(inner, patch.fields[k]);
      } else {
        MergeOntoClone(patch.fields[k]);
      }
    }
  }

  /** A merge is made of clones, so it is a plain value. */
  lemma {:induction false} MergePlain(base: Fields, patch: Json)
    requires patch.Obj?
    ensures Plain(Json.Obj(Merge(base, patch)))
    ensures Clone(Json.Obj(Merge(base, patch))) == Json.Obj(Merge(base, patch))
    decreases patch
  {
    forall k | k in Merge(base, patch)
      ensures Plain(MergedField(base, patch, k))
    {
      if k !in patch.fields {
        CloneFacts(base[k]);
      } else if k in base && base[k].Obj? && patch.fields[k].Obj? {
        MergePlain(Clone(base[k]).fields, patch.fields[k]);
      } else {
        CloneFacts(patch.fields[k]);
      }
    }
    CloneFacts(Json.Obj(Merge(base, patch)));
  }

  /** A clone of the patch already holds everything the patch says. */
  lemma {:induction false} MergeOntoClone(patch: Json)
    requires patch.Obj?
    ensures Merge(Clone(patch).fields, patch) == Clone(patch).fields
    decreases patch
  {
    forall k | k in patch.fields
      ensures MergedField(Clone(patch).fields, patch, k) == Clone(patch.fields[k])
    {
      if patch.fields[k].Obj? {
        CloneIdempotent(patch.fields[k]);
        MergeOntoClone(patch.fields[k]);
      }
    }
  }

  /** Applying the same overrides twice equals applying them once, for any body. */
  lemma OverridesIdempotent(body: Json, overrides: Fields)
    ensures ApplyOverrides(ApplyOverrides(body, overrides), overrides) == ApplyOverrides(body, overrides)
  {
    if body.Obj? {
      MergeIdempotent(body.fields, Json.Obj(overrides));
    } else {
      MergeOntoClone(Json.Obj(overrides));
    }
  }

  /** Overrides are laid over an object, and replace anything else; no overrides change
      nothing. */
  lemma OverridesPrevail(body: Json, overrides: Fields, path: seq<string>)
    requires path != [] && At(Json.Obj(overrides), path).Some? && !At(Json.Obj(overrides), path).value.Obj?
    ensures At(ApplyOverrides(body, overrides), path) == Some(Clone(At(Json.Obj(overrides), path).value))
    ensures ApplyOverrides(body, map[]) == body
    ensures !body.Obj? ==> ApplyOverrides(body, overrides) == Clone(Json.Obj(overrides))
    ensures body.Obj? ==> ApplyOverrides(body, overrides) == Json.Obj(Merge(body.fields, Json.Obj(overrides)))
  {
    if body.Obj? {
      PatchWins(body.fields, Json.Obj(overrides), path);
    } else {
      CloneAt(Json.Obj(overrides), path);
    }
  }

  lemma {:induction false} CloneAt(v: Json, path: seq<string>)
    requires At(v, path).Some?
    ensures At(Clone(v), path) == Some(Clone(At(v, path).value))
    decreases path
  {
    if path != [] {
      CloneAt(v.fields[path[0]], path[1..]);
    }
  }
}
