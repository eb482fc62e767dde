/** The depth budget is exact: a chain of levels generates a valid value if and only if its
    accumulated depth stays within the budget. */
module DepthBudget {
  import opened Text
  import opened Json
  import opened Validator
  import opened Overrides
  import opened Generator
  import opened Soundness

  /** One level of nesting around a schema. */
  datatype Level = ObjectLevel | ArrayLevel | OneOfLevel | AnyOfLevel | AllOfLevel

  /** Two for an object, an array or an `allOf`, one for a `oneOf` or an `anyOf`; an `allOf`
      level has an object inside. */
  function Cost(level: Level): nat {
    match level
    case ObjectLevel => 2
    case ArrayLevel => 2
    case OneOfLevel => 1
    case AnyOfLevel => 1
    case AllOfLevel => 4
  }

  function TotalCost(levels: seq<Level>): nat {
    if levels == [] then 0 else Cost(levels[0]) + TotalCost(levels[1..])
  }

  const LEAF: Fields := map["type" := Str("boolean")]

  function ObjectOf(inner: Json): Fields {
    map["type" := Str("object"), "properties" := Json.Obj(map["x" := inner]), "required" := Arr([Str("x")])]
  }

  function ArrayOf(inner: Json): Fields {
    map["type" := Str("array"), "items" := inner]
  }

  function Composite(keyword: string, inner: Json): Fields {
    map[keyword := Arr([inner])]
  }

  function Wrap(level: Level, inner: Json): Fields {
    match level
    case ObjectLevel => ObjectOf(inner)
    case ArrayLevel => ArrayOf(inner)
    case OneOfLevel => Composite("oneOf", inner)
    case AnyOfLevel => Composite("anyOf", inner)
    case AllOfLevel => Composite("allOf", Json.Obj(ObjectOf(inner)))
  }

  /** The levels around a Boolean. */
  function Chain(levels: seq<Level>): Json {
    if levels == [] then Json.Obj(LEAF) else Json.Obj(Wrap(levels[0], Chain(levels[1..])))
  }

  // ------------------------------------------------------------ reading the levels

  lemma KeysDiffer()
    ensures forall k :: k in ["properties", "required", "items", "oneOf", "anyOf", "allOf", "example", "examples", "enum"] ==> k != "type"
    ensures forall k :: k in ["oneOf", "anyOf", "allOf", "example", "examples", "enum"] ==>
              k != "properties" && k != "required" && k != "items"
    ensures forall k :: k in ["type", "example", "examples", "enum", "required", "properties", "items"] ==>
              k != "oneOf" && k != "anyOf" && k != "allOf"
    ensures "oneOf" != "anyOf" && "oneOf" != "allOf" && "anyOf" != "allOf"
    ensures "properties" != "required" && "properties" != "items" && "required" != "items"
  {
    assert |"type"| == 4 && |"properties"| == 10 && |"required"| == 8 && |"items"| == 5 && |"oneOf"| == 5;
    assert |"anyOf"| == 5 && |"allOf"| == 5 && |"example"| == 7 && |"examples"| == 8 && |"enum"| == 4;
    assert "type"[0] == 't' && "enum"[0] == 'e' && "required"[0] == 'r' && "examples"[0] == 'e';
    assert "items"[0] == 'i' && "oneOf"[0] == 'o' && "anyOf"[0] == 'a' && "allOf"[0] == 'a';
    assert "anyOf"[1] == 'n' && "allOf"[1] == 'l';
  }

  lemma {:induction false} PlainWord(s: string)
    requires s != "" && !IsSpace(s[0]) && !IsSpace(s[|s| - 1]) && forall i :: 0 <= i < |s| ==> 'a' <= s[i] <= 'z'
    ensures TrimSpace(s) == s && ToLower(s) == s
  {
    assert TrimLeft(s) == s;
    assert TrimRight(s) == s;
  }

  /** A keyword that is not there gives nothing. */
  lemma Absent(m: Fields, keyword: string)
    requires keyword !in m
    ensures Options(m, keyword) == [] && Branches(m, keyword) == []
  {
  }

  lemma NoExample(m: Fields)
    requires "example" !in m && "examples" !in m
    ensures FirstExample(m).None?
  {
    Absent(m, "examples");
    assert FirstNonNull([]) == None;
  }

  /** A node that only its type decides. */
  ghost predicate OnlyTyped(m: Fields) {
    && m != map[] && FirstExample(m).None? && Options(m, "enum") == [] && Branches(m, "enum") == []
    && Options(m, "oneOf") == [] && Options(m, "anyOf") == [] && Options(m, "allOf") == []
    && Branches(m, "oneOf") == [] && Branches(m, "anyOf") == [] && Branches(m, "allOf") == []
  }

  lemma TypedOnly(m: Fields)
    requires "type" in m && m.Keys <= {"type", "properties", "required", "items"}
    ensures OnlyTyped(m)
  {
    KeysDiffer();
    hide FirstExample, Options, Branches;
    NoExample(m);
    Absent(m, "enum");
    Absent(m, "oneOf");
    Absent(m, "anyOf");
    Absent(m, "allOf");
  }

  lemma TypeIs(m: Fields, name: string)
    requires "type" in m && m["type"] == Str(name) && name in ["object", "array", "boolean"]
    ensures SchemaType(m) == name && TypeOrInfer(m) == name
  {
    PlainWord("object");
    PlainWord("array");
    PlainWord("boolean");
    hide TrimSpace, ToLower;
  }

  lemma ObjectParts(inner: Json)
    ensures var m := ObjectOf(inner);
            OnlyTyped(m) && TypeOrInfer(m) == SchemaType(m) == "object" && Properties(m) == map["x" := inner] && RequiredKeys(m) == {"x"}
  {
    KeysDiffer();
    var m := ObjectOf(inner);
    TypedOnly(m);
    TypeIs(m, "object");
    hide OnlyTyped, SchemaType, TypeOrInfer;
    assert Properties(m) == map["x" := inner];
    PlainWord("x");
    OneRequired(m);
  }

  lemma OneRequired(m: Fields)
    requires "required" in m && m["required"] == Arr([Str("x")]) && TrimSpace("x") == "x"
    ensures RequiredKeys(m) == {"x"}
  {
    hide TrimSpace;
    assert [Str("x")][0] == Str("x");
  }

  lemma ArrayParts(inner: Json)
    ensures var m := ArrayOf(inner);
            OnlyTyped(m) && TypeOrInfer(m) == SchemaType(m) == "array" && "items" in m && Field(m, "items") == m["items"] == inner
  {
    KeysDiffer();
    var m := ArrayOf(inner);
    TypedOnly(m);
    TypeIs(m, "array");
  }

  lemma LeafParts()
    ensures OnlyTyped(LEAF) && TypeOrInfer(LEAF) == SchemaType(LEAF) == "boolean"
  {
    TypedOnly(LEAF);
    TypeIs(LEAF, "boolean");
  }

  /** A node that only its one composite keyword decides. */
  ghost predicate OnlyComposite(m: Fields, keyword: string, inner: Json) {
    && m != map[] && SchemaType(m) == "" && FirstExample(m).None? && Options(m, "enum") == [] && Branches(m, "enum") == []
    && Options(m, keyword) == [inner] && Branches(m, keyword) == [inner]
    && forall other :: other in ["oneOf", "anyOf", "allOf"] && other != keyword ==>
         Options(m, other) == [] && Branches(m, other) == []
  }

  lemma CompositeParts(keyword: string, inner: Json)
    requires keyword in ["oneOf", "anyOf", "allOf"]
    ensures OnlyComposite(Composite(keyword, inner), keyword, inner)
  {
    KeysDiffer();
    var m := Composite(keyword, inner);
    assert keyword in m;
    assert Options(m, keyword) == [inner] && Branches(m, keyword) == [inner];
    assert SchemaType(m) == "";
    hide FirstExample, Options, Branches, SchemaType;
    NoExample(m);
    Absent(m, "enum");
    forall other | other in ["oneOf", "anyOf", "allOf"] && other != keyword
      ensures Options(m, other) == [] && Branches(m, other) == []
    {
      Absent(m, other);
    }
  }

  lemma TypesDiffer()
    ensures "object" != "array" && "object" != "boolean" && "array" != "boolean"
    ensures forall name :: name in ["object", "array", "boolean"] ==> name != "integer" && name != "number" && name != "string" && name != ""
  {
    assert |"object"| == 6 && |"array"| == 5 && |"boolean"| == 7 && |"integer"| == 7 && |"number"| == 6 && |"string"| == 6;
    assert "object"[0] == 'o' && "boolean"[0] == 'b' && "integer"[0] == 'i' && "number"[0] == 'n' && "string"[0] == 's';
  }

  // --------------------------------------------------------------- the verdicts

  lemma ObjectVerdict(nums: Numerals, v: Json, inner: Json)
    ensures Satisfies(nums, v, Json.Obj(ObjectOf(inner))) <==>
            v.Obj? && "x" in v.fields && Satisfies(nums, v.fields["x"], inner)
  {
    ObjectParts(inner);
    TypesDiffer();
    var m := ObjectOf(inner);
    hide SchemaType, TypeOrInfer, RequiredKeys, Properties, Branches, FirstExample, Options, ObjectOf;
    assert Satisfies(nums, v, Json.Obj(m)) <==> v.Obj? && MeetsObject(nums, v, Json.Obj(m));
    if v.Obj? {
      assert MeetsObject(nums, v, Json.Obj(m)) <==> "x" in v.fields && Satisfies(nums, v.fields["x"], inner);
    }
  }

  lemma ArrayVerdict(nums: Numerals, v: Json, inner: Json)
    ensures Satisfies(nums, v, Json.Obj(ArrayOf(inner))) <==>
            v.Arr? && forall i :: 0 <= i < |v.items| ==> Satisfies(nums, v.items[i], inner)
  {
    ArrayParts(inner);
    TypesDiffer();
    var m := ArrayOf(inner);
    hide SchemaType, TypeOrInfer, RequiredKeys, Properties, Branches, FirstExample, Options, ArrayOf;
    assert Satisfies(nums, v, Json.Obj(m)) <==> v.Arr? && MeetsArray(nums, v, Json.Obj(m));
  }

  lemma LeafVerdict(nums: Numerals, v: Json)
    ensures Satisfies(nums, v, Json.Obj(LEAF)) <==> v.Bool?
  {
    LeafParts();
    TypesDiffer();
    hide SchemaType, TypeOrInfer, RequiredKeys, Properties, Branches, FirstExample, Options;
  }

  lemma CompositeVerdict(nums: Numerals, v: Json, keyword: string, inner: Json)
    requires keyword in ["oneOf", "anyOf", "allOf"]
    ensures Satisfies(nums, v, Json.Obj(Composite(keyword, inner))) <==> Satisfies(nums, v, inner)
  {
    CompositeParts(keyword, inner);
    hide Composite;
    OneBranch(nums, v, Composite(keyword, inner), keyword, inner);
  }

  lemma OneBranch(nums: Numerals, v: Json, m: Fields, keyword: string, inner: Json)
    requires keyword in ["oneOf", "anyOf", "allOf"] && OnlyComposite(m, keyword, inner)
    ensures Satisfies(nums, v, Json.Obj(m)) <==> Satisfies(nums, v, inner)
  {
    hide SchemaType, RequiredKeys, Properties, Branches, FirstExample, Options, Satisfies;
    var schema := Json.Obj(m);
    if keyword == "allOf" {
      AllOfOne(nums, v, schema, inner);
    } else if keyword == "anyOf" {
      AnyOfOne(nums, v, schema, inner);
    } else {
      OneOfOne(nums, v, schema, inner);
    }
    KeysDiffer();
    OthersQuiet(nums, v, schema, keyword, inner);
  }

  lemma AllOfOne(nums: Numerals, v: Json, schema: Json, inner: Json)
    requires schema.Obj? && Branches(schema.fields, "allOf") == [inner]
    ensures MeetsAllOf(nums, v, schema) <==> Satisfies(nums, v, inner)
  {
    hide Branches, Satisfies;
    assert Branches(schema.fields, "allOf")[0] == inner;
  }

  lemma AnyOfOne(nums: Numerals, v: Json, schema: Json, inner: Json)
    requires schema.Obj? && Branches(schema.fields, "anyOf") == [inner]
    ensures MeetsAnyOf(nums, v, schema) <==> Satisfies(nums, v, inner)
  {
    hide Branches, Satisfies;
    assert Branches(schema.fields, "anyOf")[0] == inner;
  }

  lemma OneOfOne(nums: Numerals, v: Json, schema: Json, inner: Json)
    requires schema.Obj? && Branches(schema.fields, "oneOf") == [inner]
    ensures MeetsOneOf(nums, v, schema) <==> Satisfies(nums, v, inner)
  {
    hide Branches, Satisfies;
    assert Branches(schema.fields, "oneOf")[0] == inner;
    assert OthersRefuse(nums, v, [inner], 0);
  }

  /** Nothing but the one composite keyword counts. */
  lemma OthersQuiet(nums: Numerals, v: Json, schema: Json, keyword: string, inner: Json)
    requires schema.Obj? && keyword in ["oneOf", "anyOf", "allOf"] && OnlyComposite(schema.fields, keyword, inner)
    ensures Satisfies(nums, v, schema) <==>
            (keyword == "allOf" ==> MeetsAllOf(nums, v, schema)) &&
            (keyword == "anyOf" ==> MeetsAnyOf(nums, v, schema)) &&
            (keyword == "oneOf" ==> MeetsOneOf(nums, v, schema))
  {
    KeysDiffer();
    TypesDiffer();
    hide SchemaType, RequiredKeys, Properties, Branches, FirstExample, Options;
    assert keyword != "allOf" ==> MeetsAllOf(nums, v, schema);
    assert keyword != "anyOf" ==> MeetsAnyOf(nums, v, schema);
    assert keyword != "oneOf" ==> MeetsOneOf(nums, v, schema);
    assert "" != "object" && "" != "array";
  }

  /** No chain takes null. */
  lemma {:induction false} ChainRejectsNull(nums: Numerals, levels: seq<Level>)
    ensures !Satisfies(nums, Null, Chain(levels))
    decreases levels
  {
    hide Satisfies, ObjectOf, ArrayOf, Composite;
    if levels == [] {
      LeafVerdict(nums, Null);
    } else {
      var inner := Chain(levels[1..]);
      ChainRejectsNull(nums, levels[1..]);
      match levels[0]
      case ObjectLevel => ObjectVerdict(nums, Null, inner);
      case ArrayLevel => ArrayVerdict(nums, Null, inner);
      case OneOfLevel => CompositeVerdict(nums, Null, "oneOf", inner);
      case AnyOfLevel => CompositeVerdict(nums, Null, "anyOf", inner);
      case AllOfLevel =>
        CompositeVerdict(nums, Null, "allOf", Json.Obj(ObjectOf(inner)));
        ObjectVerdict(nums, Null, inner);
    }
  }

  // ------------------------------------------------------------ what is generated

  lemma OnlyKey()
    ensures SortedKeys({"x"}) == ["x"]
  {
    hide Less;
    var none: set<string> := {};
    assert {"x"} - {"x"} == none;
    assert SortedKeys(none) == [];
    LeastExists({"x"});
    assert forall k :: IsLeast(k, {"x"}) ==> k == "x";
  }

  lemma TypedGen(g: Setup, m: Fields, depth: nat, pos: nat)
    requires depth <= MAX_DEPTH && OnlyTyped(m)
    ensures Gen(g, Json.Obj(m), depth, pos) == GenTyped(g, m, depth, pos)
  {
    hide FirstExample, Options, Branches, TypeOrInfer;
    assert Gen(g, Json.Obj(m), depth, pos) == GenNode(g, m, depth, pos);
  }

  lemma ObjectGen(g: Setup, inner: Json, depth: nat, pos: nat)
    requires depth <= MAX_DEPTH
    ensures Gen(g, Json.Obj(ObjectOf(inner)), depth, pos).value ==
            Json.Obj(map["x" := Gen(g, inner, depth + 2, pos).value])
  {
    ObjectParts(inner);
    var m := ObjectOf(inner);
    TypedGen(g, m, depth, pos);
    hide TypeOrInfer, RequiredKeys, Properties, ObjectOf, Gen, OnlyTyped;
    OneProperty(g, m, inner, depth + 2, pos);
  }

  lemma OneProperty(g: Setup, m: Fields, inner: Json, depth: nat, pos: nat)
    requires depth <= MAX_DEPTH + 2 && Properties(m) == map["x" := inner] && RequiredKeys(m) == {"x"}
    ensures GenObject(g, m, depth, pos).out == map["x" := Gen(g, inner, depth, pos).value]
  {
    OnlyKey();
    hide RequiredKeys, Properties, Gen, SortedKeys;
    assert "x" in Properties(m);
    assert GeneratedKeys(g.strategy, m) == {"x"};
    var keys := ["x"];
    assert GenProps(g, Properties(m), keys, depth, pos, 0) == Props(map[], pos);
    assert GenProps(g, Properties(m), keys, depth, pos, 1).out == map["x" := Gen(g, inner, depth, pos).value];
  }

  lemma ArrayGen(g: Setup, inner: Json, depth: nat, pos: nat)
    requires depth <= MAX_DEPTH
    ensures var v := Gen(g, Json.Obj(ArrayOf(inner)), depth, pos).value;
            v.Arr? && |v.items| >= 1 && forall i :: 0 <= i < |v.items| ==> Generable(g, inner, depth + 2, v.items[i])
  {
    ArrayParts(inner);
    TypesDiffer();
    var m := ArrayOf(inner);
    TypedGen(g, m, depth, pos);
    hide TypeOrInfer, ArrayOf, Gen, OnlyTyped, Generable;
    GenItemsFacts(g, inner, depth + 2, pos, CountFor(g, m));
    var v := GenTyped(g, m, depth, pos).value;
    assert v == Arr(GenItems(g, inner, depth + 2, pos, CountFor(g, m)).out);
  }

  lemma ChoiceGen(g: Setup, keyword: string, inner: Json, depth: nat, pos: nat)
    requires depth <= MAX_DEPTH && keyword in ["oneOf", "anyOf"]
    ensures Gen(g, Json.Obj(Composite(keyword, inner)), depth, pos) == Gen(g, inner, depth + 1, pos)
  {
    CompositeParts(keyword, inner);
    KeysDiffer();
    var m := Composite(keyword, inner);
    hide SchemaType, FirstExample, Composite, Options, Branches;
    assert Gen(g, Json.Obj(m), depth, pos) == GenNode(g, m, depth, pos);
    assert [inner][0] == inner;
  }

  lemma CompositeGen(g: Setup, m: Fields, keyword: string, inner: Json, depth: nat, pos: nat)
    requires depth <= MAX_DEPTH && OnlyComposite(m, keyword, inner)
    ensures Gen(g, Json.Obj(m), depth, pos) == GenNode(g, m, depth, pos)
  {
    hide SchemaType, FirstExample, Options, Branches, GenNode;
  }

  lemma MergedGen(g: Setup, inner: Json, depth: nat, pos: nat)
    requires depth <= MAX_DEPTH
    requires Gen(g, inner, depth + 2, pos).value.Obj? || Gen(g, inner, depth + 2, pos).value.Null?
    ensures Gen(g, Json.Obj(Composite("allOf", inner)), depth, pos).value == Gen(g, inner, depth + 2, pos).value
  {
    CompositeParts("allOf", inner);
    KeysDiffer();
    var m := Composite("allOf", inner);
    hide OnlyComposite, Composite, Gen, GenNode;
    CompositeGen(g, m, "allOf", inner, depth, pos);
    OneBranchGen(g, m, inner, depth, pos);
  }

  lemma OneBranchGen(g: Setup, m: Fields, inner: Json, depth: nat, pos: nat)
    requires depth <= MAX_DEPTH && OnlyComposite(m, "allOf", inner)
    requires Gen(g, inner, depth + 2, pos).value.Obj? || Gen(g, inner, depth + 2, pos).value.Null?
    ensures GenNode(g, m, depth, pos).value == Gen(g, inner, depth + 2, pos).value
  {
    hide SchemaType, FirstExample, Options, Branches, Gen, GenNode, Merge, GenTyped;
    KeysDiffer();
    AllOfGen(g, m, depth, pos);
    OnePart(g, inner, depth + 2, pos);
  }

  lemma OnePart(g: Setup, inner: Json, depth: nat, pos: nat)
    requires depth <= MAX_DEPTH + 2
    ensures var part, made := Gen(g, inner, depth, pos).value, GenAllOf(g, [inner], depth, pos, 1);
            if part.Obj? then made.merged == 1 && made.out == part.fields else made.merged == 0
  {
    hide Gen, Merge, Plain;
    var part := Gen(g, inner, depth, pos).value;
    assert GenAllOf(g, [inner], depth, pos, 0) == Parts(map[], 0, pos);
    if part.Obj? {
      GenPlain(g, inner, depth, pos);
      MergeIntoNothing(part);
    }
  }

  lemma MergeIntoNothing(part: Json)
    requires part.Obj? && Plain(part)
    ensures Merge(map[], part) == part.fields
  {
    assert Plain(Json.Obj(map[]));
    MergeDisjoint(map[], part);
  }

  // ---------------------------------------------------------------- the theorem

  /** A chain of levels generates a valid value if and only if its accumulated depth is within
      the budget, for every strategy and every stream of draws. */
  lemma {:induction false} BudgetExactly(g: Setup, levels: seq<Level>, depth: nat, pos: nat)
    ensures Satisfies(g.nums, Gen(g, Chain(levels), depth, pos).value, Chain(levels)) <==>
            depth + TotalCost(levels) <= 32
    decreases levels
  {
    hide Satisfies, Gen, ObjectOf, ArrayOf, Composite;
    if depth > MAX_DEPTH {
      PastBudget(g, Chain(levels), depth, pos);
      ChainRejectsNull(g.nums, levels);
    } else if levels == [] {
      LeafGen(g, depth, pos);
      LeafVerdict(g.nums, Gen(g, Json.Obj(LEAF), depth, pos).value);
    } else {
      LevelExactly(g, levels, depth, pos);
    }
  }

  lemma PastBudget(g: Setup, schema: Json, depth: nat, pos: nat)
    requires depth > MAX_DEPTH
    ensures Gen(g, schema, depth, pos).value == Null
  {
  }

  lemma LeafGen(g: Setup, depth: nat, pos: nat)
    requires depth <= MAX_DEPTH
    ensures Gen(g, Json.Obj(LEAF), depth, pos).value == Bool(true)
  {
    LeafParts();
    TypesDiffer();
    TypedGen(g, LEAF, depth, pos);
    hide TypeOrInfer, Gen, OnlyTyped;
  }

  lemma {:induction false} LevelExactly(g: Setup, levels: seq<Level>, depth: nat, pos: nat)
    requires levels != [] && depth <= MAX_DEPTH
    ensures Satisfies(g.nums, Gen(g, Chain(levels), depth, pos).value, Chain(levels)) <==>
            depth + TotalCost(levels) <= MAX_DEPTH
    decreases levels, 0
  {
    hide Satisfies, Gen, ObjectOf, ArrayOf, Composite;
    var inner, rest := Chain(levels[1..]), levels[1..];
    var v := Gen(g, Chain(levels), depth, pos).value;
    match levels[0]
    case ObjectLevel =>
      ObjectGen(g, inner, depth, pos);
      ObjectVerdict(g.nums, v, inner);
      BudgetExactly(g, rest, depth + 2, pos);
    case ArrayLevel =>
      ArrayGen(g, inner, depth, pos);
      ArrayVerdict(g.nums, v, inner);
      forall i | 0 <= i < |v.items|
        ensures Satisfies(g.nums, v.items[i], inner) <==> depth + 2 + TotalCost(rest) <= MAX_DEPTH
      {
        var at: nat :| Gen(g, inner, depth + 2, at).value == v.items[i];
        BudgetExactly(g, rest, depth + 2, at);
      }
      assert v.items[0] == v.items[0];
    case OneOfLevel =>
      ChoiceGen(g, "oneOf", inner, depth, pos);
      CompositeVerdict(g.nums, v, "oneOf", inner);
      BudgetExactly(g, rest, depth + 1, pos);
    case AnyOfLevel =>
      ChoiceGen(g, "anyOf", inner, depth, pos);
      CompositeVerdict(g.nums, v, "anyOf", inner);
      BudgetExactly(g, rest, depth + 1, pos);
    case AllOfLevel =>
      var body := Json.Obj(ObjectOf(inner));
      CompositeVerdict(g.nums, v, "allOf", body);
      ObjectVerdict(g.nums, v, inner);
      if depth + 2 <= MAX_DEPTH {
        ObjectGen(g, inner, depth + 2, pos);
        BudgetExactly(g, rest, depth + 4, pos);
      } else {
        PastBudget(g, body, depth + 2, pos);
      }
      MergedGen(g, body, depth, pos);
  }
}
