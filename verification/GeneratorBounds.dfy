/** Exactly when single generated values respect what the validator does not check (lengths,
    counts, ranges), and exactly where soundness stops at an object or `oneOf` node. */
module GeneratorBounds {
  import opened Text
  import opened Json
  import opened Validator
  import opened Generator
  import opened Soundness

  // ------------------------------------------- what a node declares, and when it can be met

  predicate MeetsLengths(nums: Numerals, m: Fields, text: string) {
    var minLength, maxLength := NumberAsInt(nums, Field(m, "minLength")), NumberAsInt(nums, Field(m, "maxLength"));
    (minLength.Some? ==> minLength.value <= |text|) && (maxLength.Some? ==> |text| <= maxLength.value)
  }

  /** The maximum, if any, is positive and not below the minimum. */
  predicate LengthsFit(nums: Numerals, m: Fields) {
    var minLength, maxLength := NumberAsInt(nums, Field(m, "minLength")), NumberAsInt(nums, Field(m, "maxLength"));
    maxLength.Some? ==> 1 <= maxLength.value && IntOr(minLength, 0) <= maxLength.value
  }

  predicate MeetsCounts(nums: Numerals, m: Fields, count: nat) {
    var minItems, maxItems := NumberAsInt(nums, Field(m, "minItems")), NumberAsInt(nums, Field(m, "maxItems"));
    (minItems.Some? ==> minItems.value <= count) && (maxItems.Some? ==> count <= maxItems.value)
  }

  /** The maximum, if any, leaves room for the minimum and for one item. */
  predicate CountsFit(nums: Numerals, m: Fields) {
    var minItems, maxItems := NumberAsInt(nums, Field(m, "minItems")), NumberAsInt(nums, Field(m, "maxItems"));
    maxItems.Some? ==> 1 <= maxItems.value && IntOr(minItems, 1) <= maxItems.value
  }

  predicate InRange(nums: Numerals, m: Fields, x: real) {
    var minimum, maximum := NumberAsFloat(nums, Field(m, "minimum")), NumberAsFloat(nums, Field(m, "maximum"));
    (minimum.Some? ==> minimum.value <= x) && (maximum.Some? ==> x <= maximum.value)
  }

  predicate HasMinimum(nums: Numerals, m: Fields) {
    NumberAsFloat(nums, Field(m, "minimum")).Some?
  }

  predicate IntegerInRange(nums: Numerals, m: Fields, k: int) {
    InRange(nums, m, k as real)
  }

  ghost predicate HoldsInteger(nums: Numerals, m: Fields) {
    exists k: int :: IntegerInRange(nums, m, k)
  }

  ghost predicate HoldsNumber(nums: Numerals, m: Fields) {
    exists x: real :: InRange(nums, m, x)
  }

  /** Without a minimum: the maximum, if any, is taken itself or leaves room for every draw. */
  predicate MaximumAllows(g: Setup, m: Fields, largest: real) {
    var maximum := NumberAsFloat(g.nums, Field(m, "maximum"));
    maximum.None? || g.strategy == Maximal || largest <= maximum.value
  }

  ghost predicate IntegersFit(g: Setup, m: Fields) {
    if HasMinimum(g.nums, m) then HoldsInteger(g.nums, m) else MaximumAllows(g, m, 99.0)
  }

  ghost predicate NumbersFit(g: Setup, m: Fields) {
    if HasMinimum(g.nums, m) then HoldsNumber(g.nums, m) else MaximumAllows(g, m, 99.5)
  }

  predicate IntegerKept(g: Setup, m: Fields, pos: nat) {
    MakeInteger(g, m, pos).value.Num? && InRange(g.nums, m, MakeInteger(g, m, pos).value.n)
  }

  predicate NumberKept(g: Setup, m: Fields, pos: nat) {
    MakeNumber(g, m, pos).value.Num? && InRange(g.nums, m, MakeNumber(g, m, pos).value.n)
  }

  // ----------------------------------------------------------------- single values

  lemma StringLengthExact(g: Setup, m: Fields, pos: nat)
    ensures MakeString(g, m, pos).value.Str?
    ensures MeetsLengths(g.nums, m, MakeString(g, m, pos).value.s) <==> LengthsFit(g.nums, m)
  {
    hide NumberAsInt, ToLower, TextOf, Hex, Itoa;
    var (text, next) := BaseText(g, ToLower(TextOf(Field(m, "format"))), pos);
    assert text != "";
  }

  lemma ItemCountExact(g: Setup, m: Fields)
    ensures MeetsCounts(g.nums, m, CountFor(g, m)) <==> CountsFit(g.nums, m)
  {
    hide NumberAsInt;
  }

  lemma IntegerRangeExact(g: Setup, m: Fields, pos: nat)
    requires HasMinimum(g.nums, m)
    ensures MakeInteger(g, m, pos).value.Num?
    ensures InRange(g.nums, m, MakeInteger(g, m, pos).value.n) <==> HoldsInteger(g.nums, m)
  {
    hide NumberAsFloat;
    var minimum := NumberAsFloat(g.nums, Field(m, "minimum")).value;
    var maximum := NumberAsFloat(g.nums, Field(m, "maximum"));
    var made := MakeInteger(g, m, pos).value.n;
    assert minimum <= Ceil(minimum) as real < minimum + 1.0;
    if k: int :| IntegerInRange(g.nums, m, k) {
      assert Ceil(minimum) <= k;
      if maximum.Some? {
        assert k <= maximum.value.Floor;
      }
    }
    assert made == made.Floor as real;
    assert InRange(g.nums, m, made) ==> IntegerInRange(g.nums, m, made.Floor);
  }

  lemma NumberRangeExact(g: Setup, m: Fields, pos: nat)
    requires HasMinimum(g.nums, m)
    ensures MakeNumber(g, m, pos).value.Num?
    ensures InRange(g.nums, m, MakeNumber(g, m, pos).value.n) <==> HoldsNumber(g.nums, m)
  {
    hide NumberAsFloat;
    var made := MakeNumber(g, m, pos).value.n;
    if x: real :| InRange(g.nums, m, x) {
      assert InRange(g.nums, m, made);
    }
  }

  lemma IntegerFits(g: Setup, m: Fields, pos: nat)
    requires IntegersFit(g, m)
    ensures IntegerKept(g, m, pos)
  {
    hide NumberAsFloat;
    if HasMinimum(g.nums, m) {
      IntegerRangeExact(g, m, pos);
    }
  }

  lemma NumberFits(g: Setup, m: Fields, pos: nat)
    requires NumbersFit(g, m)
    ensures NumberKept(g, m, pos)
  {
    hide NumberAsFloat;
    if HasMinimum(g.nums, m) {
      NumberRangeExact(g, m, pos);
    }
  }

  /** With or without a declared minimum: every stream of draws keeps the range if and only if
      the range can be met, or leaves room for the largest draw. */
  lemma EveryIntegerExact(g: Setup, m: Fields)
    ensures (forall draws: nat -> nat, pos: nat :: IntegerKept(g.(draws := draws), m, pos)) <==> IntegersFit(g, m)
  {
    hide NumberAsFloat;
    if IntegersFit(g, m) {
      forall draws: nat -> nat, pos: nat ensures IntegerKept(g.(draws := draws), m, pos) {
        IntegerFits(g.(draws := draws), m, pos);
      }
    } else {
      var worst := g.(draws := _ => 99);
      if HasMinimum(g.nums, m) {
        IntegerRangeExact(worst, m, 0);
      }
      assert !IntegerKept(worst, m, 0);
    }
  }

  lemma EveryNumberExact(g: Setup, m: Fields)
    ensures (forall draws: nat -> nat, pos: nat :: NumberKept(g.(draws := draws), m, pos)) <==> NumbersFit(g, m)
  {
    hide NumberAsFloat;
    if NumbersFit(g, m) {
      forall draws: nat -> nat, pos: nat ensures NumberKept(g.(draws := draws), m, pos) {
        NumberFits(g.(draws := draws), m, pos);
      }
    } else {
      var worst := g.(draws := _ => 99);
      if HasMinimum(g.nums, m) {
        NumberRangeExact(worst, m, 0);
      }
      assert !NumberKept(worst, m, 0);
    }
  }

  // ---------------------------------------------------- where soundness stops

  /** An object node with sound properties is right exactly when it requires nothing or
      declares some property. */
  lemma ObjectNodeExact(g: Setup, m: Fields, depth: nat, pos: nat)
    requires depth <= MAX_DEPTH && SchemaType(m) == "object" && FirstExample(m).None?
    requires Options(m, "enum") == [] && Options(m, "oneOf") == []
    requires Options(m, "anyOf") == [] && Options(m, "allOf") == []
    requires forall key :: key in GeneratedKeys(g.strategy, m) ==> Supported(g, Properties(m)[key], depth + 2)
    ensures Satisfies(g.nums, GenNode(g, m, depth, pos).value, Json.Obj(m)) <==>
            RequiredKeys(m) == {} || Properties(m) != map[]
  {
    hide Render, SortedKeys, FirstExample, RequiredKeys;
    assert GenNode(g, m, depth, pos) == GenTyped(g, m, depth, pos);
    if RequiredKeys(m) == {} || Properties(m) != map[] {
      TypedSound(g, m, depth, pos);
    } else {
      var key :| key in RequiredKeys(m);
      assert GenTyped(g, m, depth, pos).value == Json.Obj(map[]);
      assert !MeetsObject(g.nums, Json.Obj(map[]), Json.Obj(m));
    }
  }

  /** A `oneOf` node with a sound chosen branch is right exactly when no other branch
      accepts the value. */
  lemma OneOfExact(g: Setup, m: Fields, depth: nat, pos: nat)
    requires depth <= MAX_DEPTH && FirstExample(m).None? && Options(m, "enum") == []
    requires Options(m, "oneOf") == Branches(m, "oneOf") != []
    requires Branches(m, "anyOf") == [] && Branches(m, "allOf") == [] && Untyped(m)
    requires var branches := Branches(m, "oneOf");
             Supported(g, branches[Choose(g.strategy, |branches|)], depth + 1)
    ensures
      var branches := Branches(m, "oneOf");
      var value := GenNode(g, m, depth, pos).value;
      Satisfies(g.nums, value, Json.Obj(m)) <==>
        forall j :: 0 <= j < |branches| && j != Choose(g.strategy, |branches|) ==> !Satisfies(g.nums, value, branches[j])
  {
    hide Render, SortedKeys, FirstExample, RequiredKeys, Satisfies;
    var branches := Branches(m, "oneOf");
    var chosen := Choose(g.strategy, |branches|);
    GeneratorSound(g, branches[chosen], depth + 1, pos);
    var value := GenNode(g, m, depth, pos).value;
    assert value == Gen(g, branches[chosen], depth + 1, pos).value;
    OneOfNode(g.nums, m, value, chosen);
  }

  lemma OneOfNode(nums: Numerals, m: Fields, value: Json, chosen: nat)
    requires Options(m, "enum") == [] && Branches(m, "anyOf") == [] && Branches(m, "allOf") == [] && Untyped(m)
    requires chosen < |Branches(m, "oneOf")| && Satisfies(nums, value, Branches(m, "oneOf")[chosen])
    ensures
      var branches := Branches(m, "oneOf");
      Satisfies(nums, value, Json.Obj(m)) <==>
        forall j :: 0 <= j < |branches| && j != chosen ==> !Satisfies(nums, value, branches[j])
  {
    hide Satisfies, MeetsOneOf, SchemaType;
    OneOfAlone(nums, m, value);
    OneOfUnique(nums, Json.Obj(m), value, chosen);
  }

  lemma OneOfAlone(nums: Numerals, m: Fields, value: Json)
    requires Options(m, "enum") == [] && Branches(m, "anyOf") == [] && Branches(m, "allOf") == [] && Untyped(m)
    ensures Satisfies(nums, value, Json.Obj(m)) <==> MeetsOneOf(nums, value, Json.Obj(m))
  {
    hide MeetsOneOf, Render, SortedKeys, RequiredKeys;
    NoComposites(m);
  }

  lemma OneOfUnique(nums: Numerals, schema: Json, value: Json, chosen: nat)
    requires schema.Obj? && chosen < |Branches(schema.fields, "oneOf")|
    requires Satisfies(nums, value, Branches(schema.fields, "oneOf")[chosen])
    ensures
      var branches := Branches(schema.fields, "oneOf");
      MeetsOneOf(nums, value, schema) <==>
        forall j :: 0 <= j < |branches| && j != chosen ==> !Satisfies(nums, value, branches[j])
  {
    hide SchemaType, RequiredKeys, Render, SortedKeys;
    var branches := Branches(schema.fields, "oneOf");
    if MeetsOneOf(nums, value, schema) {
      var i :| 0 <= i < |branches| && Satisfies(nums, value, branches[i]) && OthersRefuse(nums, value, branches, i);
      assert i == chosen;
    } else {
      assert !OthersRefuse(nums, value, branches, chosen);
    }
  }
}
