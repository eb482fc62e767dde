/** `allOf` branches that require each other's properties: exactly when the merged body is
    right, and a schema for which it is not. */
module InheritedKeys {
  import opened Text
  import opened Json
  import opened Validator
  import opened Overrides
  import opened Generator
  import opened Soundness
  import opened DepthBudget

  /** A plain object schema whose own properties are supported; it may require keys that it
      does not define. */
  ghost predicate PlainBranch(g: Setup, branch: Json, depth: nat)
    requires depth <= MAX_DEPTH
  {
    && branch.Obj? && OnlyTyped(branch.fields) && SchemaType(branch.fields) == "object"
    && (RequiredKeys(branch.fields) == {} || Properties(branch.fields) != map[])
    && OwnSupported(g, branch.fields, depth + 2)
  }

  ghost predicate OwnSupported(g: Setup, m: Fields, depth: nat) {
    forall key :: key in GeneratedKeys(g.strategy, m) ==> Supported(g, Properties(m)[key], depth)
  }

  /** No property is defined twice. */
  ghost predicate DefinedOnce(branches: seq<Json>) {
    forall i, j, key :: 0 <= i < |branches| && 0 <= j < |branches| && Defines(branches[i], key) && Defines(branches[j], key) ==> i == j
  }

  predicate Defines(branch: Json, key: string) {
    branch.Obj? && key in Properties(branch.fields)
  }

  /** Required and not defined here: the generator fills it with the text `value`. */
  ghost predicate Fills(branch: Json, key: string) {
    branch.Obj? && key in RequiredKeys(branch.fields) && !Defines(branch, key)
  }

  /** Branch `j` defines the key, and what stands under it in the end is the text that another
      branch filled in: a later one, or any if branch `j` generates nothing for it. */
  ghost predicate FilledOver(strategy: Strategy, branches: seq<Json>, j: int, key: string) {
    && 0 <= j < |branches| && Defines(branches[j], key)
    && exists i :: 0 <= i < |branches| && Fills(branches[i], key) && (j < i || key !in GeneratedKeys(strategy, branches[j].fields))
  }

  // --------------------------------------------------------- the last part decides

  ghost predicate ObjectParts(parts: seq<Json>) {
    forall i :: 0 <= i < |parts| ==> parts[i].Obj? && Plain(parts[i])
  }

  predicate Has(part: Json, key: string) {
    part.Obj? && key in part.fields
  }

  predicate HasObject(part: Json, key: string) {
    Has(part, key) && part.fields[key].Obj?
  }

  /** At most one part holds an object under the key. */
  ghost predicate OneObject(parts: seq<Json>, key: string) {
    forall i, j :: 0 <= i < |parts| && 0 <= j < |parts| && HasObject(parts[i], key) && HasObject(parts[j], key) ==> i == j
  }

  ghost predicate IsLast(parts: seq<Json>, key: string, i: int) {
    0 <= i < |parts| && Has(parts[i], key) && forall j :: i < j < |parts| ==> !Has(parts[j], key)
  }

  /** The key is in the merge exactly if some part has it, and then the last one decides. */
  ghost predicate LastDecides(parts: seq<Json>, key: string, body: Fields) {
    && (key in body <==> exists i :: IsLast(parts, key, i))
    && (forall i :: IsLast(parts, key, i) && key in body ==> body[key] == parts[i].fields[key])
  }

  /** Under every key the merge holds what the last part with that key holds. */
  lemma {:induction false} LastWins(parts: seq<Json>, key: string)
    requires ObjectParts(parts) && OneObject(parts, key)
    ensures Plain(Json.Obj(Merged(parts)))
    ensures LastDecides(parts, key, Merged(parts))
    decreases |parts|
  {
    hide Plain, Merge, LastDecides;
    if parts == [] {
      NothingPlain(key);
    } else {
      var n := |parts| - 1;
      var front, last := parts[..n], parts[n];
      LastWins(front, key);
      MergePlain(Merged(front), last);
      if Has(last, key) {
        OverwritingDecides(parts, key, Merged(front));
      } else {
        KeepingDecides(parts, key, Merged(front));
      }
    }
  }

  lemma OverwritingDecides(parts: seq<Json>, key: string, before: Fields)
    requires ObjectParts(parts) && OneObject(parts, key) && parts != [] && Has(parts[|parts| - 1], key)
    requires LastDecides(parts[..|parts| - 1], key, before)
    ensures LastDecides(parts, key, Merge(before, parts[|parts| - 1]))
  {
    hide Plain, Merge;
    var n := |parts| - 1;
    assert IsLast(parts, key, n);
    if key in before && before[key].Obj? {
      var i :| IsLast(parts[..n], key, i);
      assert HasObject(parts[i], key);
      assert !HasObject(parts[n], key);
    }
    Overwrites(before, parts[n], key);
    assert forall i :: IsLast(parts, key, i) ==> i == n;
  }

  lemma KeepingDecides(parts: seq<Json>, key: string, before: Fields)
    requires ObjectParts(parts) && parts != [] && !Has(parts[|parts| - 1], key) && Plain(Json.Obj(before))
    requires LastDecides(parts[..|parts| - 1], key, before)
    ensures LastDecides(parts, key, Merge(before, parts[|parts| - 1]))
  {
    hide Plain, Merge;
    var n := |parts| - 1;
    Keeps(before, parts[n], key);
    forall i ensures IsLast(parts, key, i) <==> IsLast(parts[..n], key, i) {
      assert 0 <= i < n ==> parts[..n][i] == parts[i];
    }
  }

  /** If any part has the key, there is a last one. */
  lemma {:induction false} SomeLast(parts: seq<Json>, key: string, i: int)
    requires 0 <= i < |parts| && Has(parts[i], key)
    ensures exists l :: IsLast(parts, key, l)
    decreases |parts| - i
  {
    if !IsLast(parts, key, i) {
      var j :| i < j < |parts| && Has(parts[j], key);
      SomeLast(parts, key, j);
    }
  }

  lemma NothingPlain(key: string)
    ensures Plain(Json.Obj(map[])) && LastDecides([], key, map[])
  {
  }

  lemma Overwrites(before: Fields, part: Json, key: string)
    requires part.Obj? && Plain(part) && key in part.fields
    requires !(key in before && before[key].Obj? && part.fields[key].Obj?)
    ensures key in Merge(before, part) && Merge(before, part)[key] == part.fields[key]
  {
    assert Merge(before, part)[key] == MergedField(before, part, key);
    CloneFacts(part.fields[key]);
  }

  lemma Keeps(before: Fields, part: Json, key: string)
    requires part.Obj? && Plain(Json.Obj(before)) && key !in part.fields
    ensures key in Merge(before, part) <==> key in before
    ensures key in before ==> Merge(before, part)[key] == before[key]
  {
    if key in before {
      assert Merge(before, part)[key] == MergedField(before, part, key);
      CloneFacts(before[key]);
    }
  }

  // ------------------------------------------------------- what a branch yields

  /** A part has the generated properties of its branch, and the text under what it fills. */
  ghost predicate PartOf(g: Setup, branch: Json, depth: nat, part: Json) {
    && branch.Obj? && part.Obj? && Plain(part)
    && (forall key :: Has(part, key) <==> key in GeneratedKeys(g.strategy, branch.fields) || Fills(branch, key))
    && (forall key :: key in GeneratedKeys(g.strategy, branch.fields) && key in part.fields ==>
          Satisfies(g.nums, part.fields[key], Properties(branch.fields)[key]))
    && (forall key :: Fills(branch, key) && key in part.fields ==> part.fields[key] == Str("value"))
  }

  lemma BranchYields(g: Setup, branch: Json, depth: nat, pos: nat)
    requires depth <= MAX_DEPTH && PlainBranch(g, branch, depth)
    ensures PartOf(g, branch, depth, Gen(g, branch, depth, pos).value)
  {
    hide Gen, OnlyTyped, RequiredKeys, Properties, Satisfies, Supported, Plain, SchemaType, GeneratedKeys, GenTyped;
    var m := branch.fields;
    TypedGen(g, m, depth, pos);
    GenPlain(g, branch, depth, pos);
    ObjectTyped(g, m, depth, pos);
    ObjectYields(g, branch, depth + 2, pos);
  }

  lemma ObjectTyped(g: Setup, m: Fields, depth: nat, pos: nat)
    requires depth <= MAX_DEPTH && SchemaType(m) == "object"
    ensures GenTyped(g, m, depth, pos).value == Json.Obj(GenObject(g, m, depth + 2, pos).out)
  {
    hide SchemaType;
  }

  lemma ObjectYields(g: Setup, branch: Json, depth: nat, pos: nat)
    requires depth <= MAX_DEPTH + 2 && branch.Obj? && OwnSupported(g, branch.fields, depth)
    requires RequiredKeys(branch.fields) == {} || Properties(branch.fields) != map[]
    ensures var m, out := branch.fields, GenObject(g, branch.fields, depth, pos).out;
            && (forall key :: key in out <==> key in GeneratedKeys(g.strategy, m) || Fills(branch, key))
            && (forall key :: key in GeneratedKeys(g.strategy, m) && key in out ==> Satisfies(g.nums, out[key], Properties(m)[key]))
            && (forall key :: Fills(branch, key) && key in out ==> out[key] == Str("value"))
  {
    hide RequiredKeys, Properties, Satisfies, Supported, Gen;
    var m := branch.fields;
    if Properties(m) != map[] {
      var keys := SortedKeys(GeneratedKeys(g.strategy, m));
      var made := GenProps(g, Properties(m), keys, depth, pos, |keys|).out;
      GenPropsFacts(g, Properties(m), keys, depth, pos, |keys|);
      assert keys[..|keys|] == keys;
      forall key | key in GeneratedKeys(g.strategy, m) ensures Satisfies(g.nums, made[key], Properties(m)[key]) {
        GenerableSound(g, Properties(m)[key], depth, made[key]);
      }
      WithMissingFacts(made, RequiredKeys(m));
    }
  }

  lemma WithMissingFacts(out: Fields, required: set<string>)
    ensures WithMissing(out, required).Keys == out.Keys + required
    ensures forall key :: key in out ==> WithMissing(out, required)[key] == out[key]
    ensures forall key :: key in required && key !in out ==> WithMissing(out, required)[key] == Str("value")
  {
  }

  ghost predicate PlainBranches(g: Setup, branches: seq<Json>, depth: nat) {
    depth <= MAX_DEPTH && DefinedOnce(branches) && forall i :: 0 <= i < |branches| ==> PlainBranch(g, branches[i], depth)
  }

  ghost predicate PartsOf(g: Setup, branches: seq<Json>, depth: nat, parts: seq<Json>) {
    |parts| <= |branches| && forall i :: 0 <= i < |parts| ==> PartOf(g, branches[i], depth, parts[i])
  }

  lemma {:induction false} BranchesYield(g: Setup, branches: seq<Json>, depth: nat, pos: nat, n: nat)
    requires PlainBranches(g, branches, depth) && n <= |branches|
    ensures PartsOf(g, branches, depth, PartValues(g, branches, depth, pos, n))
  {
    hide PlainBranch, PartOf, Gen;
    if n > 0 {
      BranchesYield(g, branches, depth, pos, n - 1);
      BranchYields(g, branches[n - 1], depth, GenAllOf(g, branches, depth, pos, n - 1).pos);
    }
  }

  // -------------------------------------------------------------- the merged body

  /** What stands under a defined key in the merged body. */
  lemma KeyOfBody(g: Setup, branches: seq<Json>, depth: nat, parts: seq<Json>, j: int, key: string)
    requires DefinedOnce(branches) && PartsOf(g, branches, depth, parts) && |parts| == |branches|
    requires 0 <= j < |branches| && Defines(branches[j], key)
    ensures ObjectParts(parts)
    ensures FilledOver(g.strategy, branches, j, key) ==> key in Merged(parts) && Merged(parts)[key] == Str("value")
    ensures key in Merged(parts) && !FilledOver(g.strategy, branches, j, key) ==>
              Satisfies(g.nums, Merged(parts)[key], Properties(branches[j].fields)[key])
  {
    hide Satisfies, RequiredKeys, Properties, Plain, Merge;
    PartsAreObjects(g, branches, depth, parts, key);
    LastWins(parts, key);
    if FilledOver(g.strategy, branches, j, key) {
      var i :| 0 <= i < |branches| && Fills(branches[i], key) && (j < i || key !in GeneratedKeys(g.strategy, branches[j].fields));
      assert PartOf(g, branches[i], depth, parts[i]);
      SomeLast(parts, key, i);
    }
    if key in Merged(parts) {
      var l :| IsLast(parts, key, l);
      LastIsFilled(g, branches, depth, parts, j, key, l);
    }
  }

  lemma PartsAreObjects(g: Setup, branches: seq<Json>, depth: nat, parts: seq<Json>, key: string)
    requires DefinedOnce(branches) && PartsOf(g, branches, depth, parts)
    ensures ObjectParts(parts) && OneObject(parts, key)
  {
    hide Satisfies, RequiredKeys, Properties, Plain;
    forall i, j | 0 <= i < |parts| && 0 <= j < |parts| && HasObject(parts[i], key) && HasObject(parts[j], key)
      ensures i == j
    {
      assert PartOf(g, branches[i], depth, parts[i]) && PartOf(g, branches[j], depth, parts[j]);
      assert Defines(branches[i], key) && Defines(branches[j], key);
    }
  }

  /** The last part with the key is the definer's own, unless another branch filled over it. */
  lemma LastIsFilled(g: Setup, branches: seq<Json>, depth: nat, parts: seq<Json>, j: int, key: string, l: int)
    requires DefinedOnce(branches) && PartsOf(g, branches, depth, parts) && |parts| == |branches|
    requires 0 <= j < |branches| && Defines(branches[j], key) && IsLast(parts, key, l)
    ensures l == j <==> !FilledOver(g.strategy, branches, j, key)
    ensures l != j ==> parts[l].fields[key] == Str("value")
    ensures l == j ==> Satisfies(g.nums, parts[l].fields[key], Properties(branches[j].fields)[key])
  {
    hide Satisfies, RequiredKeys, Properties, Plain;
    assert PartOf(g, branches[l], depth, parts[l]) && PartOf(g, branches[j], depth, parts[j]);
    if l == j {
      assert key in GeneratedKeys(g.strategy, branches[j].fields);
      forall i | 0 <= i < |branches| && Fills(branches[i], key) ensures i <= j {
        assert PartOf(g, branches[i], depth, parts[i]);
      }
    } else {
      assert !Defines(branches[l], key);
      assert Has(parts[l], key);
      assert Fills(branches[l], key);
    }
  }

  /** All branches accept the body exactly if the definition of every key that is filled over
      takes the text. */
  lemma BodyAcceptedExactly(g: Setup, branches: seq<Json>, depth: nat, parts: seq<Json>)
    requires PlainBranches(g, branches, depth) && PartsOf(g, branches, depth, parts) && |parts| == |branches| && ObjectParts(parts)
    ensures FirstAccept(g.nums, Json.Obj(Merged(parts)), branches, |branches|) <==> TextsFit(g, branches)
  {
    hide Satisfies, RequiredKeys, Properties, Plain, PlainBranch, PartOf, FilledOver, Merged;
    var body := Json.Obj(Merged(parts));
    forall j | 0 <= j < |branches|
      ensures Satisfies(g.nums, body, branches[j]) <==> PropertiesFit(g.nums, branches[j], body.fields)
    {
      RequiredAreThere(g, branches, depth, parts, j);
      PlainVerdict(g, branches[j], depth, body.fields);
    }
    forall j, key | 0 <= j < |branches| && Defines(branches[j], key)
      ensures FilledOver(g.strategy, branches, j, key) ==> key in body.fields && body.fields[key] == Str("value")
      ensures key in body.fields && !FilledOver(g.strategy, branches, j, key) ==>
                Satisfies(g.nums, body.fields[key], Properties(branches[j].fields)[key])
    {
      KeyOfBody(g, branches, depth, parts, j, key);
    }
    FitExactly(g, branches, body.fields);
  }

  ghost predicate PropertiesFit(nums: Numerals, branch: Json, body: Fields) {
    forall key :: Defines(branch, key) && key in body ==> Satisfies(nums, body[key], Properties(branch.fields)[key])
  }

  /** Every definition whose key is filled over takes the text. */
  ghost predicate TextsFit(g: Setup, branches: seq<Json>) {
    forall j, key :: FilledOver(g.strategy, branches, j, key) ==> TakesText(g.nums, branches[j], key)
  }

  ghost predicate TakesText(nums: Numerals, branch: Json, key: string) {
    Defines(branch, key) && Satisfies(nums, Str("value"), Properties(branch.fields)[key])
  }

  lemma FitExactly(g: Setup, branches: seq<Json>, body: Fields)
    requires forall j, key :: 0 <= j < |branches| && Defines(branches[j], key) ==>
               (FilledOver(g.strategy, branches, j, key) ==> key in body && body[key] == Str("value")) &&
               (key in body && !FilledOver(g.strategy, branches, j, key) ==>
                  Satisfies(g.nums, body[key], Properties(branches[j].fields)[key]))
    ensures (forall j :: 0 <= j < |branches| ==> PropertiesFit(g.nums, branches[j], body)) <==> TextsFit(g, branches)
  {
    hide Satisfies, Properties, Fills, GeneratedKeys;
    if forall j :: 0 <= j < |branches| ==> PropertiesFit(g.nums, branches[j], body) {
      forall j, key | FilledOver(g.strategy, branches, j, key) ensures TakesText(g.nums, branches[j], key) {
        assert PropertiesFit(g.nums, branches[j], body);
      }
    }
    if TextsFit(g, branches) {
      forall j, key | 0 <= j < |branches| && Defines(branches[j], key) && key in body
        ensures Satisfies(g.nums, body[key], Properties(branches[j].fields)[key])
      {
        assert FilledOver(g.strategy, branches, j, key) ==> TakesText(g.nums, branches[j], key);
      }
    }
  }

  lemma RequiredAreThere(g: Setup, branches: seq<Json>, depth: nat, parts: seq<Json>, j: int)
    requires PlainBranches(g, branches, depth) && PartsOf(g, branches, depth, parts)
    requires |parts| == |branches| && ObjectParts(parts) && 0 <= j < |branches|
    ensures branches[j].Obj? && RequiredKeys(branches[j].fields) <= Merged(parts).Keys
  {
    hide Satisfies, Plain, Merge, RequiredKeys, Properties;
    assert PartOf(g, branches[j], depth, parts[j]);
    forall key | key in RequiredKeys(branches[j].fields) ensures key in Merged(parts) {
      PartsAreObjects(g, branches, depth, parts, key);
      LastWins(parts, key);
      SomeLast(parts, key, j);
    }
  }

  /** The verdict of a plain branch on an object with its required keys. */
  lemma PlainVerdict(g: Setup, branch: Json, depth: nat, body: Fields)
    requires depth <= MAX_DEPTH && PlainBranch(g, branch, depth) && RequiredKeys(branch.fields) <= body.Keys
    ensures Satisfies(g.nums, Json.Obj(body), branch) <==> PropertiesFit(g.nums, branch, body)
  {
    TypesDiffer();
    hide SchemaType, RequiredKeys, Properties, Branches, FirstExample, Options, Supported;
    var v := Json.Obj(body);
    assert Satisfies(g.nums, v, branch) <==> MeetsObject(g.nums, v, branch);
    assert MeetsObject(g.nums, v, branch) <==> PropertiesFit(g.nums, branch, body);
  }

  // ------------------------------------------------------------------ the theorem

  /** Plain branches that define nothing twice and are sound on their own properties: the
      generated body is right if and only if, for every key that one branch requires without
      defining it and that ends up filled with the text, the definition takes that text. */
  lemma InheritedExactly(g: Setup, m: Fields, depth: nat, pos: nat)
    requires depth + 2 <= MAX_DEPTH && FirstExample(m).None? && Options(m, "enum") == []
    requires Options(m, "oneOf") == [] && Options(m, "anyOf") == []
    requires Options(m, "allOf") == Branches(m, "allOf") != [] && AsksOnlyForObject(m)
    requires PlainBranches(g, Branches(m, "allOf"), depth + 2)
    ensures Satisfies(g.nums, GenNode(g, m, depth, pos).value, Json.Obj(m)) <==> TextsFit(g, Branches(m, "allOf"))
  {
    hide Satisfies, RequiredKeys, Properties, Plain, PlainBranches, FirstExample, SchemaType, Gen, PartOf, TextsFit;
    var branches := Branches(m, "allOf");
    var parts := PartValues(g, branches, depth + 2, pos, |branches|);
    BranchesYield(g, branches, depth + 2, pos, |branches|);
    AllObjects(g, branches, depth + 2, parts);
    GenMerged(g, branches, depth + 2, pos, |branches|);
    AllOfGen(g, m, depth, pos);
    BodyAcceptedExactly(g, branches, depth + 2, parts);
    AllOfVerdict(g.nums, m, Merged(parts));
  }

  lemma AllObjects(g: Setup, branches: seq<Json>, depth: nat, parts: seq<Json>)
    requires PartsOf(g, branches, depth, parts)
    ensures ObjectParts(parts)
  {
    hide Satisfies, Plain;
    forall i | 0 <= i < |parts| ensures parts[i].Obj? && Plain(parts[i]) {
      assert PartOf(g, branches[i], depth, parts[i]);
    }
  }

  lemma AllOfVerdict(nums: Numerals, m: Fields, out: Fields)
    requires Options(m, "enum") == [] && Options(m, "oneOf") == [] && Options(m, "anyOf") == [] && AsksOnlyForObject(m)
    ensures Satisfies(nums, Json.Obj(out), Json.Obj(m)) <==>
            FirstAccept(nums, Json.Obj(out), Branches(m, "allOf"), |Branches(m, "allOf")|)
  {
    if FirstAccept(nums, Json.Obj(out), Branches(m, "allOf"), |Branches(m, "allOf")|) {
      AllOfNode(nums, m, out);
    }
    if Satisfies(nums, Json.Obj(out), Json.Obj(m)) {
      assert MeetsAllOf(nums, Json.Obj(out), Json.Obj(m));
    }
  }

  // ------------------------------------------------------------------ an instance

  const PARENT: Fields := map["type" := Str("object"), "properties" := Json.Obj(map["n" := Json.Obj(LEAF)])]

  const CHILD: Fields :=
    map["type" := Str("object"), "properties" := Json.Obj(map["x" := Json.Obj(LEAF)]), "required" := Arr([Str("n")])]

  const FAMILY: Fields := map["allOf" := Arr([Json.Obj(PARENT), Json.Obj(CHILD)])]

  lemma ParentParts()
    ensures OnlyTyped(PARENT) && SchemaType(PARENT) == "object"
    ensures Properties(PARENT) == map["n" := Json.Obj(LEAF)] && RequiredKeys(PARENT) == {}
  {
    KeysDiffer();
    TypedOnly(PARENT);
    TypeIs(PARENT, "object");
    hide OnlyTyped, SchemaType, TypeOrInfer, TrimSpace;
    assert "required" !in PARENT;
  }

  lemma ChildParts()
    ensures OnlyTyped(CHILD) && SchemaType(CHILD) == "object"
    ensures Properties(CHILD) == map["x" := Json.Obj(LEAF)] && RequiredKeys(CHILD) == {"n"}
  {
    KeysDiffer();
    TypedOnly(CHILD);
    TypeIs(CHILD, "object");
    PlainWord("n");
    assert Properties(CHILD) == map["x" := Json.Obj(LEAF)];
    hide OnlyTyped, SchemaType, TypeOrInfer, TrimSpace, Properties;
    assert [Str("n")][0] == Str("n");
  }

  lemma FamilyParts()
    ensures FirstExample(FAMILY).None? && Options(FAMILY, "enum") == []
    ensures Options(FAMILY, "oneOf") == [] && Options(FAMILY, "anyOf") == [] && AsksOnlyForObject(FAMILY)
    ensures Options(FAMILY, "allOf") == Branches(FAMILY, "allOf") == [Json.Obj(PARENT), Json.Obj(CHILD)]
  {
    KeysDiffer();
    assert SchemaType(FAMILY) == "";
    hide FirstExample, SchemaType, PARENT, CHILD;
    NoExample(FAMILY);
    Absent(FAMILY, "enum");
    Absent(FAMILY, "oneOf");
    Absent(FAMILY, "anyOf");
  }

  lemma LeafSupported(g: Setup, depth: nat)
    requires depth <= MAX_DEPTH
    ensures Supported(g, Json.Obj(LEAF), depth)
  {
    LeafParts();
    TypesDiffer();
    hide SchemaType, FirstExample, Options, Branches;
    assert TypedSupported(g, LEAF, depth);
  }

  /** A branch with one Boolean property. */
  lemma BooleanBranch(g: Setup, m: Fields, key: string)
    requires OnlyTyped(m) && SchemaType(m) == "object" && Properties(m) == map[key := Json.Obj(LEAF)]
    ensures PlainBranch(g, Json.Obj(m), 2)
  {
    LeafSupported(g, 4);
    hide OnlyTyped, SchemaType, RequiredKeys, Properties, Supported, LEAF;
    assert OwnSupported(g, m, 4);
    assert key in Properties(m);
  }

  lemma TwoDefinedOnce(a: Fields, b: Fields)
    requires Properties(a).Keys !! Properties(b).Keys
    ensures DefinedOnce([Json.Obj(a), Json.Obj(b)])
  {
    hide Properties;
  }

  lemma FamilyIsPlain(g: Setup)
    ensures PlainBranches(g, [Json.Obj(PARENT), Json.Obj(CHILD)], 2)
  {
    ParentParts();
    ChildParts();
    BooleanBranch(g, PARENT, "n");
    BooleanBranch(g, CHILD, "x");
    assert "n" != "x";
    hide OnlyTyped, SchemaType, RequiredKeys, Properties, PlainBranch, PARENT, CHILD, LEAF;
    TwoDefinedOnce(PARENT, CHILD);
  }

  /** A parent that defines `n` as a Boolean and a child that requires `n`: the generated body
      is wrong, for every strategy and every stream of draws. */
  lemma InheritedKeyFails(g: Setup, pos: nat)
    ensures !Satisfies(g.nums, GenNode(g, FAMILY, 0, pos).value, Json.Obj(FAMILY))
  {
    hide Satisfies, GenNode, FirstExample, Options, Branches, AsksOnlyForObject, PlainBranches, TextsFit, PARENT, CHILD, FAMILY;
    FamilyParts();
    FamilyIsPlain(g);
    TextEndsUnderN(g);
    InheritedExactly(g, FAMILY, 0, pos);
  }

  lemma TextEndsUnderN(g: Setup)
    ensures !TextsFit(g, [Json.Obj(PARENT), Json.Obj(CHILD)])
  {
    ParentParts();
    ChildParts();
    LeafVerdict(g.nums, Str("value"));
    hide SchemaType, RequiredKeys, Properties, Satisfies, PARENT, CHILD, LEAF;
    var branches := [Json.Obj(PARENT), Json.Obj(CHILD)];
    assert "n" != "x";
    assert Fills(branches[1], "n");
    assert FilledOver(g.strategy, branches, 0, "n");
    assert !TakesText(g.nums, branches[0], "n");
  }
}
