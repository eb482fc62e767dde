/** Whole generated trees against lengths, counts and ranges: at every node produced from a
    type, along the path that generation takes. */
module TreeBounds {
  import opened Text
  import opened Json
  import opened Validator
  import opened Overrides
  import opened Generator
  import opened Soundness
  import opened GeneratorBounds

  /** Wherever `v` was produced from a type: texts, arrays and numbers meet what the node
      declares if and only if that can be met, and so do all parts. Values taken from an
      example or an enum, and nodes past the depth budget, are not produced from a type. */
  ghost predicate Bounded(g: Setup, schema: Json, depth: nat, v: Json)
    decreases 40 - depth, 1, 0
  {
    depth <= MAX_DEPTH && schema.Obj? && schema.fields != map[] ==> BoundedNode(g, schema.fields, depth, v)
  }

  ghost predicate BoundedNode(g: Setup, m: Fields, depth: nat, v: Json)
    requires depth <= MAX_DEPTH
    decreases 40 - depth, 0, 1
  {
    if FirstExample(m).Some? || Options(m, "enum") != [] then true
    else if Options(m, "oneOf") != [] then
      Bounded(g, Options(m, "oneOf")[Choose(g.strategy, |Options(m, "oneOf")|)], depth + 1, v)
    else if Options(m, "anyOf") != [] then
      Bounded(g, Options(m, "anyOf")[Choose(g.strategy, |Options(m, "anyOf")|)], depth + 1, v)
    else if Options(m, "allOf") != [] then
      exists parts :: BoundedParts(g, Options(m, "allOf"), depth + 2, parts) && v == MergedObjects(parts)
    else BoundedTyped(g, m, depth, v)
  }

  /** One bounded part for every branch. */
  ghost predicate BoundedParts(g: Setup, branches: seq<Json>, depth: nat, parts: seq<Json>)
    requires depth <= MAX_DEPTH + 2
    decreases 40 - depth, 2, 0
  {
    |parts| == |branches| && forall i :: 0 <= i < |branches| ==> Bounded(g, branches[i], depth, parts[i])
  }

  /** What an `allOf` makes of its parts: the objects merged in order, or null without any. */
  function MergedObjects(parts: seq<Json>): (out: Json)
    ensures out.Obj? || out.Null?
  {
    if parts == [] then Null
    else
      var before, last := MergedObjects(parts[..|parts| - 1]), parts[|parts| - 1];
      if !last.Obj? then before
      else Json.Obj(Merge(if before.Obj? then before.fields else map[], last))
  }

  ghost predicate BoundedTyped(g: Setup, m: Fields, depth: nat, v: Json)
    requires depth <= MAX_DEPTH
    decreases 40 - depth, 0, 0
  {
    match TypeOrInfer(m)
    case "object" =>
      v.Obj? && GeneratedKeys(g.strategy, m) <= v.fields.Keys && BoundedProperties(g, m, depth + 2, v.fields)
    case "array" =>
      && v.Arr? && (MeetsCounts(g.nums, m, |v.items|) <==> CountsFit(g.nums, m))
      && forall i :: 0 <= i < |v.items| ==> Bounded(g, Field(m, "items"), depth + 2, v.items[i])
    case "integer" =>
      && v.Num? && IsIntegral(v.n) && (IntegersFit(g, m) ==> InRange(g.nums, m, v.n))
      && (HasMinimum(g.nums, m) ==> (InRange(g.nums, m, v.n) <==> HoldsInteger(g.nums, m)))
    case "number" =>
      && v.Num? && (NumbersFit(g, m) ==> InRange(g.nums, m, v.n))
      && (HasMinimum(g.nums, m) ==> (InRange(g.nums, m, v.n) <==> HoldsNumber(g.nums, m)))
    case "boolean" => v.Bool?
    case "null" => v.Null?
    case _ => v.Str? && (MeetsLengths(g.nums, m, v.s) <==> LengthsFit(g.nums, m))
  }

  /** Every property the object has is bounded by its own schema. */
  ghost predicate BoundedProperties(g: Setup, m: Fields, depth: nat, fields: Fields)
    requires depth <= MAX_DEPTH + 2
    decreases 40 - depth, 2, 0
  {
    forall key :: key in Properties(m) && key in fields ==> Bounded(g, Properties(m)[key], depth, fields[key])
  }

  // ---------------------------------------------------------------- the theorem

  /** Every generated tree is bounded: for every schema, strategy, stream of draws, depth and
      position. */
  lemma {:induction false} GeneratedTreeBounded(g: Setup, schema: Json, depth: nat, pos: nat)
    ensures Bounded(g, schema, depth, Gen(g, schema, depth, pos).value)
    decreases 40 - depth, 1, 0
  {
    if depth <= MAX_DEPTH && schema.Obj? && schema.fields != map[] {
      NodeBounded(g, schema.fields, depth, pos);
    }
  }

  lemma {:induction false} NodeBounded(g: Setup, m: Fields, depth: nat, pos: nat)
    requires depth <= MAX_DEPTH
    ensures BoundedNode(g, m, depth, GenNode(g, m, depth, pos).value)
    decreases 40 - depth, 0, 1
  {
    hide FirstExample, BoundedTyped, GenTyped, MergedObjects;
    if FirstExample(m).Some? || Options(m, "enum") != [] {
    } else if Options(m, "oneOf") != [] {
      var options := Options(m, "oneOf");
      GeneratedTreeBounded(g, options[Choose(g.strategy, |options|)], depth + 1, pos);
    } else if Options(m, "anyOf") != [] {
      var options := Options(m, "anyOf");
      GeneratedTreeBounded(g, options[Choose(g.strategy, |options|)], depth + 1, pos);
    } else if Options(m, "allOf") != [] {
      var options := Options(m, "allOf");
      var parts := PartValues(g, options, depth + 2, pos, |options|);
      PartsBounded(g, options, depth + 2, pos, |options|);
      PartsMerge(g, options, depth + 2, pos, |options|);
      assert BoundedParts(g, options, depth + 2, parts);
    } else {
      TypedBounded(g, m, depth, pos);
    }
  }

  lemma {:induction false} PartsBounded(g: Setup, branches: seq<Json>, depth: nat, pos: nat, n: nat)
    requires n <= |branches| && depth <= MAX_DEPTH + 2
    ensures forall i :: 0 <= i < n ==> Bounded(g, branches[i], depth, PartValues(g, branches, depth, pos, n)[i])
    decreases 40 - depth, 2, n
  {
    hide Bounded;
    if n > 0 {
      PartsBounded(g, branches, depth, pos, n - 1);
      GeneratedTreeBounded(g, branches[n - 1], depth, GenAllOf(g, branches, depth, pos, n - 1).pos);
    }
  }

  /** `allOf` yields the merge of its parts. */
  lemma {:induction false} PartsMerge(g: Setup, branches: seq<Json>, depth: nat, pos: nat, n: nat)
    requires n <= |branches| && depth <= MAX_DEPTH + 2
    ensures var made := GenAllOf(g, branches, depth, pos, n);
            && MergedObjects(PartValues(g, branches, depth, pos, n)) == (if made.merged == 0 then Null else Json.Obj(made.out))
            && (made.merged == 0 ==> made.out == map[])
  {
    hide Gen, Merge;
    if n > 0 {
      var parts, before := PartValues(g, branches, depth, pos, n), PartValues(g, branches, depth, pos, n - 1);
      assert parts[..n - 1] == before;
      PartsMerge(g, branches, depth, pos, n - 1);
    }
  }

  lemma {:induction false} TypedBounded(g: Setup, m: Fields, depth: nat, pos: nat)
    requires depth <= MAX_DEPTH
    ensures BoundedTyped(g, m, depth, GenTyped(g, m, depth, pos).value)
    decreases 40 - depth, 0, 0
  {
    hide TypeOrInfer, MakeString, MakeInteger, MakeNumber, MeetsLengths, LengthsFit, MeetsCounts, CountsFit, InRange,
         HasMinimum, HoldsInteger, HoldsNumber, IntegersFit, NumbersFit, Bounded;
    match TypeOrInfer(m)
    case "object" => ObjectBounded(g, m, depth + 2, pos);
    case "array" =>
      ItemCountExact(g, m);
      ItemsBounded(g, Field(m, "items"), depth + 2, pos, CountFor(g, m));
    case "integer" =>
      IntegerIsWhole(g, m, pos);
      if IntegersFit(g, m) {
        IntegerFits(g, m, pos);
      }
      if HasMinimum(g.nums, m) {
        IntegerRangeExact(g, m, pos);
      }
    case "number" =>
      NumberIsNumber(g, m, pos);
      if NumbersFit(g, m) {
        NumberFits(g, m, pos);
      }
      if HasMinimum(g.nums, m) {
        NumberRangeExact(g, m, pos);
      }
    case "boolean" =>
    case "null" =>
    case _ => StringLengthExact(g, m, pos);
  }

  lemma IntegerIsWhole(g: Setup, m: Fields, pos: nat)
    ensures MakeInteger(g, m, pos).value.Num? && IsIntegral(MakeInteger(g, m, pos).value.n)
  {
    hide NumberAsFloat;
  }

  lemma NumberIsNumber(g: Setup, m: Fields, pos: nat)
    ensures MakeNumber(g, m, pos).value.Num?
  {
    hide NumberAsFloat;
  }

  lemma {:induction false} ItemsBounded(g: Setup, items: Json, depth: nat, pos: nat, n: nat)
    requires depth <= MAX_DEPTH + 2
    ensures forall i :: 0 <= i < n ==> Bounded(g, items, depth, GenItems(g, items, depth, pos, n).out[i])
    decreases 40 - depth, 2, n
  {
    hide Bounded;
    if n > 0 {
      ItemsBounded(g, items, depth, pos, n - 1);
      GeneratedTreeBounded(g, items, depth, GenItems(g, items, depth, pos, n - 1).pos);
    }
  }

  lemma {:induction false} ObjectBounded(g: Setup, m: Fields, depth: nat, pos: nat)
    requires depth <= MAX_DEPTH + 2
    ensures GeneratedKeys(g.strategy, m) <= GenObject(g, m, depth, pos).out.Keys
    ensures BoundedProperties(g, m, depth, GenObject(g, m, depth, pos).out)
    decreases 40 - depth, 3, 0
  {
    hide Bounded, RequiredKeys, Properties;
    GeneratedArePresent(g, m, depth, pos);
    if Properties(m) != map[] {
      ObjectFacts(g, m, depth, pos);
      var out := GenObject(g, m, depth, pos).out;
      forall key | key in Properties(m) && key in out ensures Bounded(g, Properties(m)[key], depth, out[key]) {
        GenerableBounded(g, Properties(m)[key], depth, out[key]);
      }
    }
  }

  lemma GeneratedArePresent(g: Setup, m: Fields, depth: nat, pos: nat)
    requires depth <= MAX_DEPTH + 2
    ensures GeneratedKeys(g.strategy, m) <= GenObject(g, m, depth, pos).out.Keys
  {
    hide RequiredKeys, Properties;
    if Properties(m) != map[] {
      var keys := SortedKeys(GeneratedKeys(g.strategy, m));
      GenPropsFacts(g, Properties(m), keys, depth, pos, |keys|);
      assert keys[..|keys|] == keys;
    }
  }

  lemma {:induction false} GenerableBounded(g: Setup, schema: Json, depth: nat, v: Json)
    requires Generable(g, schema, depth, v)
    ensures Bounded(g, schema, depth, v)
    decreases 40 - depth, 2, 0
  {
    var pos: nat :| Gen(g, schema, depth, pos).value == v;
    GeneratedTreeBounded(g, schema, depth, pos);
  }

  // ------------------------------------------- merged objects without common keys

  /** Plain objects, each within the footprint of its branch. */
  ghost predicate PartsWithin(branches: seq<Json>, parts: seq<Json>) {
    |parts| <= |branches| &&
    forall i :: 0 <= i < |parts| ==> parts[i].Obj? && Plain(parts[i]) && parts[i].fields.Keys <= Footprint(branches[i])
  }

  /** Merging in a part with other keys keeps what agreed, and keeps the part itself. */
  lemma MergeAgrees(before: Fields, part: Json)
    requires part.Obj? && Plain(part) && Plain(Json.Obj(before)) && before.Keys !! part.fields.Keys
    ensures var out := Merge(before, part);
            && (forall kept, keys :: AgreeOn(kept, before, keys) && keys !! part.fields.Keys ==> AgreeOn(kept, out, keys))
            && (forall keys :: keys !! before.Keys ==> AgreeOn(part.fields, out, keys))
            && out.Keys == before.Keys + part.fields.Keys && Plain(Json.Obj(out))
  {
    MergeDisjoint(before, part);
    MergePlain(before, part);
    hide Plain, MergedField;
  }

  ghost predicate Joins(branches: seq<Json>, parts: seq<Json>, body: Fields) {
    && |parts| <= |branches|
    && body.Keys <= FootprintOf(branches, |parts|) && Plain(Json.Obj(body))
    && forall i :: 0 <= i < |parts| ==> parts[i].Obj? && AgreeOn(parts[i].fields, body, Footprint(branches[i]))
  }

  /** Merging parts without common keys changes none of them. */
  lemma {:induction false} MergedJoins(branches: seq<Json>, parts: seq<Json>)
    requires DisjointFootprints(branches) && PartsWithin(branches, parts)
    ensures Joins(branches, parts, Merged(parts))
    decreases |parts|
  {
    hide Merge, Footprint, FootprintOf, AgreeOn, Plain;
    if parts == [] {
      NothingJoins(branches);
    } else {
      var n := |parts| - 1;
      MergedJoins(branches, parts[..n]);
      JoinOne(branches, parts, Merged(parts[..n]));
    }
  }

  lemma NothingJoins(branches: seq<Json>)
    ensures Joins(branches, [], map[])
  {
  }

  lemma JoinOne(branches: seq<Json>, parts: seq<Json>, before: Fields)
    requires DisjointFootprints(branches) && PartsWithin(branches, parts) && parts != []
    requires Joins(branches, parts[..|parts| - 1], before)
    ensures Joins(branches, parts, Merge(before, parts[|parts| - 1]))
  {
    hide Merge, Footprint, FootprintOf, AgreeOn, Plain;
    var n := |parts| - 1;
    var out := Merge(before, parts[n]);
    NextFootprint(branches, n);
    LastAgrees(before, parts[n], Footprint(branches[n]), FootprintOf(branches, n));
    forall i | 0 <= i < n ensures AgreeOn(parts[i].fields, out, Footprint(branches[i])) {
      FootprintWithin(branches, i, n);
      assert parts[..n][i] == parts[i];
      KeptAgrees(parts[i].fields, before, parts[n], Footprint(branches[i]), FootprintOf(branches, n));
    }
  }

  lemma NextFootprint(branches: seq<Json>, n: nat)
    requires DisjointFootprints(branches) && n < |branches|
    ensures FootprintOf(branches, n) !! Footprint(branches[n])
    ensures FootprintOf(branches, n + 1) == FootprintOf(branches, n) + Footprint(branches[n])
  {
    hide Footprint;
  }

  lemma LastAgrees(before: Fields, part: Json, own: set<string>, others: set<string>)
    requires part.Obj? && Plain(part) && Plain(Json.Obj(before)) && own !! others
    requires before.Keys <= others && part.fields.Keys <= own
    ensures var out := Merge(before, part); AgreeOn(part.fields, out, own) && out.Keys <= others + own && Plain(Json.Obj(out))
  {
    hide Merge, Plain, AgreeOn;
    MergeAgrees(before, part);
  }

  lemma KeptAgrees(kept: Fields, before: Fields, part: Json, keys: set<string>, others: set<string>)
    requires part.Obj? && Plain(part) && Plain(Json.Obj(before)) && AgreeOn(kept, before, keys)
    requires keys <= others && part.fields.Keys !! others && before.Keys <= others
    ensures AgreeOn(kept, Merge(before, part), keys)
  {
    hide Merge, Plain, AgreeOn;
    MergeAgrees(before, part);
  }

  /** At every `allOf` inside the schema, the branches look at no common key. */
  ghost predicate Separate(schema: Json)
    decreases schema
  {
    schema.Obj? ==>
      var branches := Branches(schema.fields, "allOf");
      DisjointFootprints(branches) && forall i :: 0 <= i < |branches| ==> Separate(branches[i])
  }

  /** Object schemas within the budget, without common keys. */
  ghost predicate SeparateObjects(branches: seq<Json>, depth: nat) {
    DisjointFootprints(branches) &&
    forall j :: 0 <= j < |branches| ==> ObjectShaped(branches[j], depth) && Separate(branches[j])
  }

  /** The fields meet a schema of an object, down through its `allOf` branches: the generated
      properties are there, and every property is bounded by its own schema. */
  ghost predicate BoundedWithin(g: Setup, schema: Json, depth: nat, fields: Fields)
    decreases schema
  {
    && schema.Obj? && depth <= MAX_DEPTH
    && var branches := Branches(schema.fields, "allOf");
       if branches == [] then
         GeneratedKeys(g.strategy, schema.fields) <= fields.Keys && BoundedProperties(g, schema.fields, depth + 2, fields)
       else forall i :: 0 <= i < |branches| ==> BoundedWithin(g, branches[i], depth + 2, fields)
  }

  /** Only the footprint counts. */
  lemma {:induction false} WithinFrame(g: Setup, schema: Json, depth: nat, a: Fields, b: Fields)
    requires BoundedWithin(g, schema, depth, a) && AgreeOn(a, b, Footprint(schema))
    ensures BoundedWithin(g, schema, depth, b)
    decreases schema
  {
    hide Bounded, RequiredKeys, Properties, GeneratedKeys;
    var branches := Branches(schema.fields, "allOf");
    if branches == [] {
      FlatFootprint(g.strategy, schema);
    } else {
      forall i | 0 <= i < |branches| ensures BoundedWithin(g, branches[i], depth + 2, b) {
        FootprintWithin(branches, i, |branches|);
        WithinFrame(g, branches[i], depth + 2, a, b);
      }
    }
  }

  ghost predicate ValueWithin(g: Setup, schema: Json, depth: nat, v: Json) {
    v.Obj? && BoundedWithin(g, schema, depth, v.fields)
  }

  /** What an object schema generates, with any nesting of `allOf`. */
  lemma {:induction false} ObjectWithin(g: Setup, schema: Json, depth: nat, pos: nat)
    requires ObjectShaped(schema, depth) && Separate(schema)
    ensures ValueWithin(g, schema, depth, Gen(g, schema, depth, pos).value)
    decreases 40 - depth, 1, 0
  {
    hide Bounded, BoundedProperties, GeneratedKeys, Gen, GenNode, DisjointFootprints, FirstExample, SchemaType, TypeOrInfer,
         Properties, RequiredKeys;
    var branches := Branches(schema.fields, "allOf");
    assert ShapedNode(schema, depth);
    if branches == [] {
      GeneratedTreeBounded(g, schema, depth, pos);
      FlatBranch(g, schema, depth, Gen(g, schema, depth, pos).value);
    } else {
      ShapedAllOf(g, schema, depth, pos);
      MergedBodyBounded(g, branches, depth + 2, pos);
    }
  }

  lemma ShapedAllOf(g: Setup, schema: Json, depth: nat, pos: nat)
    requires ObjectShaped(schema, depth) && Branches(schema.fields, "allOf") != []
    ensures var branches := Branches(schema.fields, "allOf");
            Gen(g, schema, depth, pos).value == Json.Obj(GenAllOf(g, branches, depth + 2, pos, |branches|).out)
  {
    hide FirstExample, SchemaType, RequiredKeys, Properties, GenTyped, TypeOrInfer, Merge;
    var branches := Branches(schema.fields, "allOf");
    assert ShapedNode(schema, depth);
    assert Gen(g, schema, depth, pos) == GenNode(g, schema.fields, depth, pos);
    PartsShaped(g, branches, depth + 2, pos, |branches|);
    AllOfGen(g, schema.fields, depth, pos);
  }

  lemma {:induction false} PartsWithinBranches(g: Setup, branches: seq<Json>, depth: nat, pos: nat, n: nat)
    requires depth <= MAX_DEPTH && SeparateObjects(branches, depth) && n <= |branches|
    ensures forall i :: 0 <= i < n ==> ValueWithin(g, branches[i], depth, PartValues(g, branches, depth, pos, n)[i])
    decreases 40 - depth, 2, n
  {
    hide ObjectShaped, Separate, DisjointFootprints, ValueWithin, Gen;
    if n > 0 {
      PartsWithinBranches(g, branches, depth, pos, n - 1);
      ObjectWithin(g, branches[n - 1], depth, GenAllOf(g, branches, depth, pos, n - 1).pos);
    }
  }

  /** In the merged body of an `allOf` of object schemas without common keys, whose branches
      may be such an `allOf` in turn, every property of every branch is bounded by that
      branch's schema for it. */
  lemma {:induction false} MergedBodyBounded(g: Setup, branches: seq<Json>, depth: nat, pos: nat)
    requires depth <= MAX_DEPTH && SeparateObjects(branches, depth)
    ensures forall i :: 0 <= i < |branches| ==>
              BoundedWithin(g, branches[i], depth, GenAllOf(g, branches, depth, pos, |branches|).out)
    decreases 40 - depth, 3, 0
  {
    hide BoundedWithin, ObjectShaped, Separate, Footprint, FootprintOf, Merge, Plain, Gen, AgreeOn;
    var parts := PartValues(g, branches, depth, pos, |branches|);
    var body := GenAllOf(g, branches, depth, pos, |branches|).out;
    PartsShaped(g, branches, depth, pos, |branches|);
    GenMerged(g, branches, depth, pos, |branches|);
    MergedJoins(branches, parts);
    PartsWithinBranches(g, branches, depth, pos, |branches|);
    forall i | 0 <= i < |branches| ensures BoundedWithin(g, branches[i], depth, body) {
      assert ValueWithin(g, branches[i], depth, parts[i]);
      WithinFrame(g, branches[i], depth, parts[i].fields, body);
    }
  }

  lemma {:induction false} PartsShaped(g: Setup, branches: seq<Json>, depth: nat, pos: nat, n: nat)
    requires n <= |branches| && depth <= MAX_DEPTH
    requires forall j :: 0 <= j < |branches| ==> ObjectShaped(branches[j], depth)
    ensures PartsWithin(branches, PartValues(g, branches, depth, pos, n))
  {
    hide ObjectShaped, Footprint, Gen;
    if n > 0 {
      var before := GenAllOf(g, branches, depth, pos, n - 1).pos;
      PartsShaped(g, branches, depth, pos, n - 1);
      GenKeys(g, branches[n - 1], depth, before);
      GenPlain(g, branches[n - 1], depth, before);
    }
  }

  /** What is bounded by a branch that is no `allOf` itself has bounded properties. */
  lemma FlatBranch(g: Setup, branch: Json, depth: nat, v: Json)
    requires depth <= MAX_DEPTH && ObjectShaped(branch, depth) && Branches(branch.fields, "allOf") == [] && Bounded(g, branch, depth, v)
    ensures v.Obj? && GeneratedKeys(g.strategy, branch.fields) <= v.fields.Keys
    ensures BoundedProperties(g, branch.fields, depth + 2, v.fields)
  {
    hide FirstExample, SchemaType, RequiredKeys, SortedKeys, GeneratedKeys, Properties, TypeOrInfer;
    assert ShapedNode(branch, depth);
    assert BoundedNode(g, branch.fields, depth, v);
    assert BoundedTyped(g, branch.fields, depth, v);
  }

  lemma FlatFootprint(strategy: Strategy, branch: Json)
    requires branch.Obj? && Branches(branch.fields, "allOf") == []
    ensures Properties(branch.fields).Keys <= Footprint(branch)
    ensures GeneratedKeys(strategy, branch.fields) <= Footprint(branch)
  {
    hide RequiredKeys, Properties;
  }
}
