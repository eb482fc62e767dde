/** The generator against the validator: what is generated satisfies its schema. */
module Soundness {
  import opened Text
  import opened Json
  import opened Validator
  import opened Overrides
  import opened Generator

  // ---------------------------------------------------------- supported schemas

  /** The type keyword constrains nothing. */
  predicate Untyped(m: Fields) {
    SchemaType(m) !in {"object", "array", "string", "boolean", "integer", "number"}
  }

  /** Beside its `allOf` branches a node asks at most for an object. */
  ghost predicate AsksOnlyForObject(m: Fields) {
    Untyped(m) || (SchemaType(m) == "object" && Properties(m) == map[] && RequiredKeys(m) == {})
  }

  /** The schema without its enum. */
  function WithoutEnum(m: Fields): Json {
    Json.Obj(m - {"enum"})
  }

  /** The keys a schema of an object can look at, at its top level. */
  ghost function Footprint(schema: Json): set<string> {
    if !schema.Obj? then {}
    else
      var branches := Branches(schema.fields, "allOf");
      if branches == [] then Properties(schema.fields).Keys + RequiredKeys(schema.fields)
      else FootprintOf(branches, |branches|)
  }

  /** The footprint of the first `n` branches together. */
  ghost function FootprintOf(branches: seq<Json>, n: nat): set<string>
    requires n <= |branches|
    decreases branches, n
  {
    if n == 0 then {} else FootprintOf(branches, n - 1) + Footprint(branches[n - 1])
  }

  /** Schemas that describe an object by properties, or by `allOf` of such schemas,
      within the depth budget. */
  ghost predicate ObjectShaped(schema: Json, depth: nat)
    decreases schema, 1
  {
    schema.Obj? && schema.fields != map[] && depth <= MAX_DEPTH && ShapedNode(schema, depth)
  }

  ghost predicate ShapedNode(schema: Json, depth: nat)
    requires schema.Obj?
    decreases schema, 0
  {
    var m := schema.fields;
    var branches := Branches(m, "allOf");
    && FirstExample(m).None?
    && Options(m, "enum") == [] && Options(m, "oneOf") == [] && Options(m, "anyOf") == []
    && Options(m, "allOf") == branches
    && if branches == [] then TypeOrInfer(m) == "object"
       else AsksOnlyForObject(m) && forall i :: 0 <= i < |branches| ==> ObjectShaped(branches[i], depth + 2)
  }

  /** No two branches look at a common key. */
  ghost predicate DisjointFootprints(branches: seq<Json>) {
    forall n :: 0 <= n < |branches| ==> FootprintOf(branches, n) !! Footprint(branches[n])
  }

  lemma {:induction false} FootprintWithin(branches: seq<Json>, i: nat, n: nat)
    requires i < n <= |branches|
    ensures Footprint(branches[i]) <= FootprintOf(branches, n)
  {
    if i < n - 1 {
      FootprintWithin(branches, i, n - 1);
    }
  }

  /** The value can be generated at some point of the draws. */
  ghost predicate Generable(g: Setup, schema: Json, depth: nat, v: Json) {
    exists pos: nat :: Gen(g, schema, depth, pos).value == v
  }

  /** What a caller checks of a schema, node by node along the path generation takes:
      depth stays in the budget, an example or first enum value fits its own node, a
      chosen branch stands alone, `oneOf` alternatives reject what the chosen one yields,
      `allOf` branches describe disjoint parts of an object, and an object that requires
      keys has properties. */
  ghost predicate Supported(g: Setup, schema: Json, depth: nat)
    decreases 40 - depth, 1, 0
  {
    schema.Obj? && schema.fields != map[] ==> depth <= MAX_DEPTH && NodeSupported(g, schema.fields, depth)
  }

  ghost predicate NodeSupported(g: Setup, m: Fields, depth: nat)
    requires depth <= MAX_DEPTH
    decreases 40 - depth, 0, 1
  {
    if FirstExample(m).Some? then Satisfies(g.nums, FirstExample(m).value, Json.Obj(m))
    else if Options(m, "enum") != [] then Satisfies(g.nums, Clone(Options(m, "enum")[0]), WithoutEnum(m))
    else if Options(m, "oneOf") != [] then
      var options := Options(m, "oneOf");
      var chosen := Choose(g.strategy, |options|);
      && Branches(m, "anyOf") == [] && Branches(m, "allOf") == [] && Untyped(m)
      && Supported(g, options[chosen], depth + 1)
      && OthersReject(g, Branches(m, "oneOf"), chosen, depth + 1)
    else if Options(m, "anyOf") != [] then
      var options := Options(m, "anyOf");
      && Branches(m, "allOf") == [] && Untyped(m)
      && Supported(g, options[Choose(g.strategy, |options|)], depth + 1)
    else if Options(m, "allOf") != [] then
      var branches := Branches(m, "allOf");
      Options(m, "allOf") == branches && AsksOnlyForObject(m) && BranchesSupported(g, branches, depth + 2)
    else TypedSupported(g, m, depth)
  }

  /** Whatever the chosen branch can yield, no other branch accepts. */
  ghost predicate OthersReject(g: Setup, branches: seq<Json>, chosen: nat, depth: nat) {
    forall v, j :: 0 <= j < |branches| && j != chosen && chosen < |branches| && Generable(g, branches[chosen], depth, v)
      ==> !Satisfies(g.nums, v, branches[j])
  }

  /** Branches of an `allOf`: supported objects with no key in common. */
  ghost predicate BranchesSupported(g: Setup, branches: seq<Json>, depth: nat)
    requires depth <= MAX_DEPTH + 2
    decreases 40 - depth, 2, 0
  {
    DisjointFootprints(branches) &&
    forall i :: 0 <= i < |branches| ==> ObjectShaped(branches[i], depth) && Supported(g, branches[i], depth)
  }

  ghost predicate TypedSupported(g: Setup, m: Fields, depth: nat)
    requires depth <= MAX_DEPTH
    decreases 40 - depth, 0, 0
  {
    && (SchemaType(m) == "object" ==>
          && (RequiredKeys(m) == {} || Properties(m) != map[])
          && forall key :: key in GeneratedKeys(g.strategy, m) ==> Supported(g, Properties(m)[key], depth + 2))
    && (SchemaType(m) == "array" ==> Supported(g, Field(m, "items"), depth + 2))
  }

  // ------------------------------------------------------------- helper facts

  /** Everything generated could have come from JSON text. */
  lemma {:induction false} GenPlain(g: Setup, schema: Json, depth: nat, pos: nat)
    ensures Plain(Gen(g, schema, depth, pos).value)
    decreases 40 - depth, 1, 0
  {
    assert Plain(Null);
    hide FirstExample, Plain, Clone, Merge, GenTyped, SchemaType, TypeOrInfer;
    if depth <= MAX_DEPTH && schema.Obj? && schema.fields != map[] {
      var m := schema.fields;
      assert Gen(g, schema, depth, pos) == GenNode(g, m, depth, pos);
      if FirstExample(m).Some? {
        FirstExamplePlain(m);
      } else if Options(m, "enum") != [] {
        CloneFacts(Options(m, "enum")[0]);
      } else if Options(m, "oneOf") != [] {
        GenPlain(g, Options(m, "oneOf")[Choose(g.strategy, |Options(m, "oneOf")|)], depth + 1, pos);
      } else if Options(m, "anyOf") != [] {
        GenPlain(g, Options(m, "anyOf")[Choose(g.strategy, |Options(m, "anyOf")|)], depth + 1, pos);
      } else if Options(m, "allOf") != [] {
        GenAllOfPlain(g, Options(m, "allOf"), depth + 2, pos, |Options(m, "allOf")|);
      } else {
        GenTypedPlain(g, m, depth, pos);
      }
    }
  }

  lemma FirstExamplePlain(m: Fields)
    requires FirstExample(m).Some?
    ensures Plain(FirstExample(m).value)
  {
    if Field(m, "example") != Null {
      CloneFacts(m["example"]);
    } else {
      var examples := Field(m, "examples");
      var found :=
        if examples.Obj? then FirstNonNullField(examples.fields, SortedKeys(examples.fields.Keys))
        else FirstNonNull(Options(m, "examples"));
      CloneFacts(found.value);
    }
  }

  lemma {:induction false} GenAllOfPlain(g: Setup, options: seq<Json>, depth: nat, pos: nat, n: nat)
    requires n <= |options| && depth <= MAX_DEPTH + 2
    ensures Plain(Json.Obj(GenAllOf(g, options, depth, pos, n).out))
    decreases 40 - depth, 2, n
  {
    if n > 0 {
      GenAllOfPlain(g, options, depth, pos, n - 1);
      var before := GenAllOf(g, options, depth, pos, n - 1);
      var part := Gen(g, options[n - 1], depth, before.pos);
      if part.value.Obj? {
        MergePlain(before.out, part.value);
      }
    }
  }

  lemma {:induction false} GenTypedPlain(g: Setup, m: Fields, depth: nat, pos: nat)
    requires depth <= MAX_DEPTH
    ensures Plain(GenTyped(g, m, depth, pos).value)
    decreases 40 - depth, 0, 0
  {
    hide TypeOrInfer, RequiredKeys, SortedKeys, MakeString, MakeInteger, MakeNumber;
    MakePlain(g, m, pos);
    if TypeOrInfer(m) == "object" && Properties(m) != map[] {
      var keys := SortedKeys(GeneratedKeys(g.strategy, m));
      GenPropsPlain(g, Properties(m), keys, depth + 2, pos, |keys|);
    } else if TypeOrInfer(m) == "array" {
      GenItemsPlain(g, Field(m, "items"), depth + 2, pos, CountFor(g, m));
    }
  }

  lemma MakePlain(g: Setup, m: Fields, pos: nat)
    ensures Plain(MakeString(g, m, pos).value) && Plain(MakeInteger(g, m, pos).value) && Plain(MakeNumber(g, m, pos).value)
  {
  }

  lemma {:induction false} GenPropsPlain(g: Setup, props: Fields, keys: seq<string>, depth: nat, pos: nat, n: nat)
    requires n <= |keys| && depth <= MAX_DEPTH + 2
    requires forall key :: key in keys ==> key in props
    ensures Plain(Json.Obj(GenProps(g, props, keys, depth, pos, n).out))
    decreases 40 - depth, 2, n
  {
    if n > 0 {
      GenPropsPlain(g, props, keys, depth, pos, n - 1);
      GenPlain(g, props[keys[n - 1]], depth, GenProps(g, props, keys, depth, pos, n - 1).pos);
    }
  }

  lemma {:induction false} GenItemsPlain(g: Setup, items: Json, depth: nat, pos: nat, n: nat)
    requires depth <= MAX_DEPTH + 2
    ensures Plain(Arr(GenItems(g, items, depth, pos, n).out))
    decreases 40 - depth, 2, n
  {
    if n > 0 {
      GenItemsPlain(g, items, depth, pos, n - 1);
      GenPlain(g, items, depth, GenItems(g, items, depth, pos, n - 1).pos);
    }
  }

  /** The keys and values `GenProps` produces. */
  lemma {:induction false} GenPropsFacts(g: Setup, props: Fields, keys: seq<string>, depth: nat, pos: nat, n: nat)
    requires n <= |keys| && depth <= MAX_DEPTH + 2
    requires forall key :: key in keys ==> key in props
    ensures GenProps(g, props, keys, depth, pos, n).out.Keys == Elements(keys[..n])
    ensures forall key :: key in GenProps(g, props, keys, depth, pos, n).out ==>
              key in props && Generable(g, props[key], depth, GenProps(g, props, keys, depth, pos, n).out[key])
  {
    if n > 0 {
      GenPropsFacts(g, props, keys, depth, pos, n - 1);
      var before := GenProps(g, props, keys, depth, pos, n - 1);
      var last := keys[n - 1];
      assert keys[..n] == keys[..n - 1] + [last];
      assert Generable(g, props[last], depth, Gen(g, props[last], depth, before.pos).value);
    }
  }

  lemma {:induction false} GenItemsFacts(g: Setup, items: Json, depth: nat, pos: nat, n: nat)
    requires depth <= MAX_DEPTH + 2
    ensures forall i :: 0 <= i < n ==> Generable(g, items, depth, GenItems(g, items, depth, pos, n).out[i])
  {
    if n > 0 {
      GenItemsFacts(g, items, depth, pos, n - 1);
      var before := GenItems(g, items, depth, pos, n - 1);
      assert Generable(g, items, depth, Gen(g, items, depth, before.pos).value);
    }
  }

  // ----------------------------------------------------------------- framing

  ghost predicate AgreeOn(a: Fields, b: Fields, keys: set<string>) {
    forall key :: key in keys ==> (key in a <==> key in b) && (key in a ==> a[key] == b[key])
  }

  /** Validation of an object-shaped schema reads nothing outside its footprint. */
  lemma {:induction false} Frame(nums: Numerals, a: Fields, b: Fields, schema: Json, depth: nat)
    requires ObjectShaped(schema, depth) && AgreeOn(a, b, Footprint(schema))
    requires Satisfies(nums, Json.Obj(a), schema)
    ensures Satisfies(nums, Json.Obj(b), schema)
  {
    var m := schema.fields;
    var branches := Branches(m, "allOf");
    forall i | 0 <= i < |branches|
      ensures Satisfies(nums, Json.Obj(b), branches[i])
    {
      assert MeetsAllOf(nums, Json.Obj(a), schema);
      FootprintWithin(branches, i, |branches|);
      Frame(nums, a, b, branches[i], depth + 2);
    }
    NoComposites(m);
    assert MeetsObject(nums, Json.Obj(a), schema);
    if SchemaType(m) == "object" && branches == [] {
      assert Footprint(schema) == Properties(m).Keys + RequiredKeys(m);
    }
  }

  /** Where the generator sees no branches, neither does the validator. */
  lemma NoComposites(m: Fields)
    ensures forall keyword :: Options(m, keyword) == [] ==> Branches(m, keyword) == []
  {
  }

  lemma ObjectKeys(g: Setup, m: Fields, depth: nat, pos: nat)
    requires depth <= MAX_DEPTH + 2
    ensures GenObject(g, m, depth, pos).out.Keys <= Properties(m).Keys + RequiredKeys(m)
  {
    if Properties(m) != map[] {
      var keys := SortedKeys(GeneratedKeys(g.strategy, m));
      GenPropsFacts(g, Properties(m), keys, depth, pos, |keys|);
      assert keys[..|keys|] == keys;
    }
  }

  /** How generation dispatches on an object-shaped schema. */
  lemma ShapedGen(g: Setup, schema: Json, depth: nat, pos: nat)
    requires ObjectShaped(schema, depth)
    ensures
      var v := Gen(g, schema, depth, pos).value;
      var branches := Branches(schema.fields, "allOf");
      if branches == [] then v == Json.Obj(GenObject(g, schema.fields, depth + 2, pos).out)
      else
        var parts := GenAllOf(g, branches, depth + 2, pos, |branches|);
        v == if parts.merged == 0 then Null else Json.Obj(parts.out)
  {
    hide FirstExample, SchemaType, RequiredKeys, Render, SortedKeys;
    var m := schema.fields;
    assert ShapedNode(schema, depth);
    assert Gen(g, schema, depth, pos) == GenNode(g, m, depth, pos);
    if Branches(m, "allOf") == [] {
      assert GenNode(g, m, depth, pos) == GenTyped(g, m, depth, pos);
    } else {
      AllOfGen(g, m, depth, pos);
    }
  }

  /** An object-shaped schema yields an object with keys from its footprint. */
  lemma {:induction false} GenKeys(g: Setup, schema: Json, depth: nat, pos: nat)
    requires ObjectShaped(schema, depth)
    ensures Gen(g, schema, depth, pos).value.Obj?
    ensures Gen(g, schema, depth, pos).value.fields.Keys <= Footprint(schema)
    decreases 40 - depth, 1, 0
  {
    hide FirstExample, SchemaType, RequiredKeys, Render, SortedKeys;
    var m := schema.fields;
    var branches := Branches(m, "allOf");
    ShapedGen(g, schema, depth, pos);
    if branches == [] {
      ObjectKeys(g, m, depth + 2, pos);
    } else {
      GenAllOfKeys(g, branches, depth + 2, pos, |branches|);
    }
  }

  lemma {:induction false} GenAllOfKeys(g: Setup, branches: seq<Json>, depth: nat, pos: nat, n: nat)
    requires n <= |branches| && depth <= MAX_DEPTH + 2
    requires forall i :: 0 <= i < |branches| ==> ObjectShaped(branches[i], depth)
    ensures GenAllOf(g, branches, depth, pos, n).merged == n
    ensures GenAllOf(g, branches, depth, pos, n).out.Keys <= FootprintOf(branches, n)
    decreases 40 - depth, 2, n
  {
    hide FirstExample, SchemaType, RequiredKeys, Render, SortedKeys;
    if n > 0 {
      GenAllOfKeys(g, branches, depth, pos, n - 1);
      GenKeys(g, branches[n - 1], depth, GenAllOf(g, branches, depth, pos, n - 1).pos);
    }
  }

  // -------------------------------------------------------------- the theorem

  /** Every node kind of a supported schema yields a value that satisfies it: for every
      strategy, every stream of draws and every position in it. */
  lemma {:induction false} GeneratorSound(g: Setup, schema: Json, depth: nat, pos: nat)
    requires Supported(g, schema, depth)
    ensures Satisfies(g.nums, Gen(g, schema, depth, pos).value, schema)
    decreases 40 - depth, 1, 0
  {
    if schema.Obj? && schema.fields != map[] {
      NodeSound(g, schema.fields, depth, pos);
    } else {
      EmptySound(g.nums, schema);
    }
  }

  lemma {:induction false} NodeSound(g: Setup, m: Fields, depth: nat, pos: nat)
    requires depth <= MAX_DEPTH && NodeSupported(g, m, depth)
    ensures Satisfies(g.nums, GenNode(g, m, depth, pos).value, Json.Obj(m))
    decreases 40 - depth, 0, 1
  {
    hide FirstExample, SchemaType, RequiredKeys, Render, SortedKeys, Satisfies;
    if FirstExample(m).Some? {
    } else if Options(m, "enum") != [] {
      EnumSound(g.nums, m);
    } else if Options(m, "oneOf") != [] {
      OneOfSound(g, m, depth, pos);
    } else if Options(m, "anyOf") != [] {
      AnyOfSound(g, m, depth, pos);
    } else if Options(m, "allOf") != [] {
      BranchesGood(g, Branches(m, "allOf"), depth + 2, pos);
      AllOfSound(g, m, depth, pos);
    } else {
      TypedSound(g, m, depth, pos);
    }
  }

  /** A schema that is no object, or an empty one, accepts everything. */
  lemma EmptySound(nums: Numerals, schema: Json)
    requires schema.Obj? ==> schema.fields == map[]
    ensures Satisfies(nums, Null, schema)
  {
  }

  lemma EnumSound(nums: Numerals, m: Fields)
    requires Options(m, "enum") != []
    requires Satisfies(nums, Clone(Options(m, "enum")[0]), WithoutEnum(m))
    ensures Satisfies(nums, Clone(Options(m, "enum")[0]), Json.Obj(m))
  {
    var first := Options(m, "enum")[0];
    RenderClone(nums, first);
    EnumAside(nums, Clone(first), m);
  }

  /** Dropping the enum leaves every other keyword's verdict alone. */
  lemma EnumAside(nums: Numerals, v: Json, m: Fields)
    requires Satisfies(nums, v, WithoutEnum(m)) && MeetsEnum(nums, v, m)
    ensures Satisfies(nums, v, Json.Obj(m))
  {
    hide SchemaType, RequiredKeys, Render, SortedKeys;
    var rest := WithoutEnum(m);
    SameBeside(m);
    assert MeetsAllOf(nums, v, rest) ==> MeetsAllOf(nums, v, Json.Obj(m));
    assert MeetsAnyOf(nums, v, rest) ==> MeetsAnyOf(nums, v, Json.Obj(m));
    assert MeetsOneOf(nums, v, rest) ==> MeetsOneOf(nums, v, Json.Obj(m));
  }

  lemma SameBeside(m: Fields)
    ensures
      var rest := WithoutEnum(m).fields;
      && SchemaType(rest) == SchemaType(m) && RequiredKeys(rest) == RequiredKeys(m)
      && Properties(rest) == Properties(m)
      && forall keyword :: keyword != "enum" ==> Branches(rest, keyword) == Branches(m, keyword)
  {
    assert forall key :: key != "enum" ==> Field(m - {"enum"}, key) == Field(m, key);
  }

  lemma {:induction false} OneOfSound(g: Setup, m: Fields, depth: nat, pos: nat)
    requires depth <= MAX_DEPTH && NodeSupported(g, m, depth)
    requires FirstExample(m).None? && Options(m, "enum") == [] && Options(m, "oneOf") != []
    ensures Satisfies(g.nums, GenNode(g, m, depth, pos).value, Json.Obj(m))
    decreases 40 - depth, 0, 0
  {
    hide FirstExample, SchemaType, RequiredKeys, Render, SortedKeys;
    var options := Options(m, "oneOf");
    var chosen := Choose(g.strategy, |options|);
    var v := Gen(g, options[chosen], depth + 1, pos).value;
    GeneratorSound(g, options[chosen], depth + 1, pos);
    assert Generable(g, options[chosen], depth + 1, v);
    var branches := Branches(m, "oneOf");
    if branches != [] {
      assert Satisfies(g.nums, v, branches[chosen]) && OthersRefuse(g.nums, v, branches, chosen);
    }
  }

  lemma {:induction false} AnyOfSound(g: Setup, m: Fields, depth: nat, pos: nat)
    requires depth <= MAX_DEPTH && NodeSupported(g, m, depth)
    requires FirstExample(m).None? && Options(m, "enum") == [] && Options(m, "oneOf") == [] && Options(m, "anyOf") != []
    ensures Satisfies(g.nums, GenNode(g, m, depth, pos).value, Json.Obj(m))
    decreases 40 - depth, 0, 0
  {
    hide FirstExample, SchemaType, RequiredKeys, Render, SortedKeys;
    var options := Options(m, "anyOf");
    GeneratorSound(g, options[Choose(g.strategy, |options|)], depth + 1, pos);
  }

  lemma AllOfSound(g: Setup, m: Fields, depth: nat, pos: nat)
    requires depth <= MAX_DEPTH && Options(m, "allOf") == Branches(m, "allOf") && AsksOnlyForObject(m)
    requires FirstExample(m).None? && Options(m, "enum") == [] && Options(m, "oneOf") == []
    requires Options(m, "anyOf") == [] && Options(m, "allOf") != []
    requires var branches := Branches(m, "allOf");
             AllAccept(g.nums, GenAllOf(g, branches, depth + 2, pos, |branches|), branches)
    ensures Satisfies(g.nums, GenNode(g, m, depth, pos).value, Json.Obj(m))
  {
    hide FirstExample, SchemaType, RequiredKeys, Render, SortedKeys;
    var branches := Branches(m, "allOf");
    AllOfGen(g, m, depth, pos);
    AllOfNode(g.nums, m, GenAllOf(g, branches, depth + 2, pos, |branches|).out);
  }

  /** All branches yielded objects, and all accept the merge. */
  ghost predicate AllAccept(nums: Numerals, made: Parts, branches: seq<Json>) {
    made.merged == |branches| && FirstAccept(nums, Json.Obj(made.out), branches, |branches|)
  }

  lemma AllOfGen(g: Setup, m: Fields, depth: nat, pos: nat)
    requires depth <= MAX_DEPTH && FirstExample(m).None? && Options(m, "enum") == [] && Options(m, "oneOf") == []
    requires Options(m, "anyOf") == [] && Options(m, "allOf") != []
    ensures
      var parts := GenAllOf(g, Options(m, "allOf"), depth + 2, pos, |Options(m, "allOf")|);
      GenNode(g, m, depth, pos).value == if parts.merged == 0 then Null else Json.Obj(parts.out)
  {
  }

  lemma {:induction false} BranchesGood(g: Setup, branches: seq<Json>, depth: nat, pos: nat)
    requires depth <= MAX_DEPTH + 2 && BranchesSupported(g, branches, depth)
    ensures AllAccept(g.nums, GenAllOf(g, branches, depth, pos, |branches|), branches)
    decreases 40 - depth, 3, 0
  {
    var parts := PartValues(g, branches, depth, pos, |branches|);
    forall i | 0 <= i < |branches|
      ensures Framed(g.nums, branches[i]) && GoodPart(g.nums, branches[i], parts[i])
    {
      BranchGood(g, branches, depth, pos, |branches|, i);
    }
    MergedSound(g.nums, branches, parts, |branches|);
    GenMerged(g, branches, depth, pos, |branches|);
  }

  /** An `allOf` node accepts an object that all its branches accept. */
  lemma AllOfNode(nums: Numerals, m: Fields, out: Fields)
    requires Options(m, "enum") == [] && Options(m, "oneOf") == [] && Options(m, "anyOf") == []
    requires AsksOnlyForObject(m)
    requires FirstAccept(nums, Json.Obj(out), Branches(m, "allOf"), |Branches(m, "allOf")|)
    ensures Satisfies(nums, Json.Obj(out), Json.Obj(m))
  {
    NoComposites(m);
    assert MeetsObject(nums, Json.Obj(out), Json.Obj(m));
  }

  ghost predicate FirstAccept(nums: Numerals, v: Json, branches: seq<Json>, n: nat)
    requires n <= |branches|
  {
    forall i :: 0 <= i < n ==> Satisfies(nums, v, branches[i])
  }

  /** The verdict on an object depends on the schema's footprint only. */
  ghost predicate Framed(nums: Numerals, schema: Json) {
    forall a: Fields, b: Fields {:trigger AgreeOn(a, b, Footprint(schema))} ::
      AgreeOn(a, b, Footprint(schema)) && Satisfies(nums, Json.Obj(a), schema)
      ==> Satisfies(nums, Json.Obj(b), schema)
  }

  ghost predicate GoodPart(nums: Numerals, branch: Json, part: Json) {
    part.Obj? && Plain(part) && part.fields.Keys <= Footprint(branch) && Satisfies(nums, part, branch)
  }

  /** What the first `n` branches of an `allOf` yield, one by one. */
  ghost function PartValues(g: Setup, branches: seq<Json>, depth: nat, pos: nat, n: nat): (parts: seq<Json>)
    requires n <= |branches| && depth <= MAX_DEPTH + 2
    ensures |parts| == n
  {
    if n == 0 then []
    else
      PartValues(g, branches, depth, pos, n - 1) +
      [Gen(g, branches[n - 1], depth, GenAllOf(g, branches, depth, pos, n - 1).pos).value]
  }

  ghost function Merged(parts: seq<Json>): Fields
    requires forall i :: 0 <= i < |parts| ==> parts[i].Obj?
  {
    if parts == [] then map[] else Merge(Merged(parts[..|parts| - 1]), parts[|parts| - 1])
  }

  /** When every branch yields an object, `allOf` merges them all, in order. */
  lemma {:induction false} GenMerged(g: Setup, branches: seq<Json>, depth: nat, pos: nat, n: nat)
    requires n <= |branches| && depth <= MAX_DEPTH + 2
    requires forall i :: 0 <= i < n ==> PartValues(g, branches, depth, pos, n)[i].Obj?
    ensures GenAllOf(g, branches, depth, pos, n).merged == n
    ensures GenAllOf(g, branches, depth, pos, n).out == Merged(PartValues(g, branches, depth, pos, n))
  {
    if n > 0 {
      var parts, before := PartValues(g, branches, depth, pos, n), PartValues(g, branches, depth, pos, n - 1);
      assert parts[..n - 1] == before;
      assert forall i :: 0 <= i < n - 1 ==> before[i] == parts[i];
      GenMerged(g, branches, depth, pos, n - 1);
      assert parts[n - 1].Obj?;
    }
  }

  lemma {:induction false} BranchGood(g: Setup, branches: seq<Json>, depth: nat, pos: nat, n: nat, i: nat)
    requires i < n <= |branches| && depth <= MAX_DEPTH + 2
    requires ObjectShaped(branches[i], depth) && Supported(g, branches[i], depth)
    ensures Framed(g.nums, branches[i])
    ensures GoodPart(g.nums, branches[i], PartValues(g, branches, depth, pos, n)[i])
    decreases 40 - depth, 2, n
  {
    if i == n - 1 {
      var before := GenAllOf(g, branches, depth, pos, n - 1).pos;
      BranchFramed(g.nums, branches[i], depth);
      GeneratorSound(g, branches[i], depth, before);
      GenKeys(g, branches[i], depth, before);
      GenPlain(g, branches[i], depth, before);
    } else {
      BranchGood(g, branches, depth, pos, n - 1, i);
    }
  }

  lemma BranchFramed(nums: Numerals, schema: Json, depth: nat)
    requires ObjectShaped(schema, depth)
    ensures Framed(nums, schema)
  {
    forall a: Fields, b: Fields | AgreeOn(a, b, Footprint(schema)) && Satisfies(nums, Json.Obj(a), schema)
      ensures Satisfies(nums, Json.Obj(b), schema)
    {
      Frame(nums, a, b, schema, depth);
    }
  }

  /** Plain objects without a common key merge into their union. */
  lemma MergeDisjoint(before: Fields, part: Json)
    requires part.Obj? && Plain(part) && Plain(Json.Obj(before)) && before.Keys !! part.fields.Keys
    ensures forall key :: key in before ==> Merge(before, part)[key] == before[key]
    ensures forall key :: key in part.fields ==> Merge(before, part)[key] == part.fields[key]
  {
    forall key | key in before ensures Merge(before, part)[key] == before[key] {
      assert Merge(before, part)[key] == MergedField(before, part, key);
      CloneFacts(before[key]);
    }
    forall key | key in part.fields ensures Merge(before, part)[key] == part.fields[key] {
      assert Merge(before, part)[key] == MergedField(before, part, key);
      CloneFacts(part.fields[key]);
    }
  }

  /** Merging in the part of one more branch keeps the earlier verdicts and adds its own. */
  lemma MergeSound(nums: Numerals, branches: seq<Json>, before: Fields, part: Json, n: nat)
    requires 0 < n <= |branches| && FootprintOf(branches, n - 1) !! Footprint(branches[n - 1])
    requires forall i :: 0 <= i < n ==> Framed(nums, branches[i])
    requires Plain(Json.Obj(before)) && before.Keys <= FootprintOf(branches, n - 1)
    requires FirstAccept(nums, Json.Obj(before), branches, n - 1)
    requires GoodPart(nums, branches[n - 1], part)
    ensures FirstAccept(nums, Json.Obj(Merge(before, part)), branches, n)
  {
    var out := Merge(before, part);
    MergeDisjoint(before, part);
    forall i | 0 <= i < n ensures Satisfies(nums, Json.Obj(out), branches[i]) {
      if i < n - 1 {
        FootprintWithin(branches, i, n - 1);
        assert AgreeOn(before, out, Footprint(branches[i]));
      } else {
        assert AgreeOn(part.fields, out, Footprint(branches[i]));
      }
    }
  }

  /** The merge of the first `n` parts satisfies the first `n` branches. */
  lemma {:induction false} MergedSound(nums: Numerals, branches: seq<Json>, parts: seq<Json>, n: nat)
    requires |parts| == n <= |branches| && DisjointFootprints(branches)
    requires forall i :: 0 <= i < n ==> parts[i].Obj?
    requires forall i :: 0 <= i < n ==> Framed(nums, branches[i]) && GoodPart(nums, branches[i], parts[i])
    ensures Merged(parts).Keys <= FootprintOf(branches, n) && Plain(Json.Obj(Merged(parts)))
    ensures FirstAccept(nums, Json.Obj(Merged(parts)), branches, n)
  {
    if n > 0 {
      var front := parts[..n - 1];
      MergedSound(nums, branches, front, n - 1);
      MergePlain(Merged(front), parts[n - 1]);
      MergeSound(nums, branches, Merged(front), parts[n - 1], n);
    }
  }

  lemma {:induction false} TypedSound(g: Setup, m: Fields, depth: nat, pos: nat)
    requires depth <= MAX_DEPTH && TypedSupported(g, m, depth)
    requires Options(m, "enum") == [] && Options(m, "oneOf") == []
    requires Options(m, "anyOf") == [] && Options(m, "allOf") == []
    ensures Satisfies(g.nums, GenTyped(g, m, depth, pos).value, Json.Obj(m))
    decreases 40 - depth, 0, 0
  {
    var v := GenTyped(g, m, depth, pos).value;
    assert HasType(SchemaType(m), v);
    assert MeetsEnum(g.nums, v, m);
    if SchemaType(m) == "object" {
      ObjectSound(g, m, depth, pos);
    }
    if SchemaType(m) == "array" {
      ArraySound(g, m, depth, pos);
    }
  }

  /** The keys of a generated object, and where their values come from. */
  lemma ObjectFacts(g: Setup, m: Fields, depth: nat, pos: nat)
    requires depth <= MAX_DEPTH + 2 && Properties(m) != map[]
    ensures
      var obj := GenObject(g, m, depth, pos).out;
      && RequiredKeys(m) <= obj.Keys
      && forall key :: key in Properties(m) && key in obj ==>
           key in GeneratedKeys(g.strategy, m) && Generable(g, Properties(m)[key], depth, obj[key])
  {
    var keys := SortedKeys(GeneratedKeys(g.strategy, m));
    GenPropsFacts(g, Properties(m), keys, depth, pos, |keys|);
    assert keys[..|keys|] == keys;
  }

  lemma {:induction false} ObjectSound(g: Setup, m: Fields, depth: nat, pos: nat)
    requires depth <= MAX_DEPTH && TypedSupported(g, m, depth) && SchemaType(m) == "object"
    ensures MeetsObject(g.nums, GenTyped(g, m, depth, pos).value, Json.Obj(m))
    decreases 39 - depth, 0, 0
  {
    hide FirstExample, SchemaType, RequiredKeys, Render, SortedKeys;
    var obj := GenObject(g, m, depth + 2, pos).out;
    assert GenTyped(g, m, depth, pos).value == Json.Obj(obj);
    if Properties(m) != map[] {
      ObjectFacts(g, m, depth + 2, pos);
      forall key | key in Properties(m) && key in obj
        ensures Satisfies(g.nums, obj[key], Properties(m)[key])
      {
        GenerableSound(g, Properties(m)[key], depth + 2, obj[key]);
      }
    }
  }

  lemma {:induction false} GenerableSound(g: Setup, schema: Json, depth: nat, v: Json)
    requires Supported(g, schema, depth) && Generable(g, schema, depth, v)
    ensures Satisfies(g.nums, v, schema)
    decreases 40 - depth, 2, 0
  {
    var pos: nat :| Gen(g, schema, depth, pos).value == v;
    GeneratorSound(g, schema, depth, pos);
  }

  lemma {:induction false} ArraySound(g: Setup, m: Fields, depth: nat, pos: nat)
    requires depth <= MAX_DEPTH && TypedSupported(g, m, depth) && SchemaType(m) == "array"
    ensures MeetsArray(g.nums, GenTyped(g, m, depth, pos).value, Json.Obj(m))
    decreases 39 - depth, 0, 0
  {
    hide FirstExample, SchemaType, RequiredKeys, Render, SortedKeys;
    var items := Field(m, "items");
    var made := GenItems(g, items, depth + 2, pos, CountFor(g, m));
    GenItemsFacts(g, items, depth + 2, pos, CountFor(g, m));
    forall i | 0 <= i < |made.out|
      ensures Satisfies(g.nums, made.out[i], items)
    {
      GenerableSound(g, items, depth + 2, made.out[i]);
    }
  }
}
