/** The payload generator: what it builds from a schema, as a function of the strategy
    and of the random draws, and the class that computes it by mutating its state. */
module Generator {
  import opened Text
  import opened Json
  import opened Validator
  import opened Overrides

  datatype Strategy = Minimal | Example | Maximal

  /** `draws` is the stream a seeded source yields; `nums` is how numbers are read. */
  datatype Setup = Setup(strategy: Strategy, draws: nat -> nat, nums: Numerals)

  /** A generated value and the position in the stream of draws after it. */
  datatype Made = Made(value: Json, pos: nat)

  const MAX_DEPTH: nat := 32

  // ------------------------------------------------------ reading a schema node

  /** A keyword's array as the generator sees it: a `[]string` counts too. */
  function Options(m: Fields, keyword: string): seq<Json> {
    match Field(m, keyword)
    case Arr(items) => items
    case Strs(texts) => TextItems(texts)
    case _ => []
  }

  function FirstNonNull(items: seq<Json>): Option<Json> {
    if items == [] then None
    else if items[0] != Null then Some(items[0])
    else FirstNonNull(items[1..])
  }

  function FirstNonNullField(m: Fields, keys: seq<string>): Option<Json> {
    if keys == [] then None
    else if Field(m, keys[0]) != Null then Some(m[keys[0]])
    else FirstNonNullField(m, keys[1..])
  }

  /** `firstSchemaExample`: `example`, else the first usable entry of `examples`. */
  function FirstExample(m: Fields): Option<Json> {
    if Field(m, "example") != Null then Some(Clone(m["example"]))
    else
      var examples := Field(m, "examples");
      var found :=
        if examples.Obj? then FirstNonNullField(examples.fields, SortedKeys(examples.fields.Keys))
        else FirstNonNull(Options(m, "examples"));
      if found.Some? then Some(Clone(found.value)) else None
  }

  /** `schemaTypeOrInfer`. */
  function TypeOrInfer(m: Fields): string {
    if SchemaType(m) != "" then SchemaType(m)
    else if "properties" in m then "object"
    else if "items" in m then "array"
    else ""
  }

  /** `chooseCompositeOption`: the last option under the maximal strategy, else the first. */
  function Choose(strategy: Strategy, count: nat): nat
    requires count > 0
    ensures Choose(strategy, count) < count
  {
    if strategy == Maximal then count - 1 else 0
  }

  function NumberAsFloat(nums: Numerals, v: Json): Option<real> {
    match v
    case Num(n) => Some(n)
    case Str(s) => nums.parse(TrimSpace(s))
    case _ => None
  }

  /** `math.Round`: halves go away from zero. */
  function Round(x: real): int {
    if x >= 0.0 then (x + 0.5).Floor else -(-x + 0.5).Floor
  }

  function NumberAsInt(nums: Numerals, v: Json): Option<int> {
    var f := NumberAsFloat(nums, v);
    if f.Some? then Some(Round(f.value)) else None
  }

  function Ceil(x: real): int {
    -(-x).Floor
  }

  // --------------------------------------------------------------------- leaves

  function HexDigit(n: nat): char
    requires n < 16
  {
    if n < 10 then Digit(n) else ['a', 'b', 'c', 'd', 'e', 'f'][n - 10]
  }

  /** The low `width` hexadecimal digits of `n`. */
  function Hex(n: nat, width: nat): (s: string)
    ensures |s| == width
  {
    if width == 0 then "" else Hex(n / 16, width - 1) + [HexDigit(n % 16)]
  }

  function Repeat(c: char, n: nat): string {
    seq(n, _ => c)
  }

  /** The text a string format starts from; never empty. */
  function BaseText(g: Setup, format: string, pos: nat): (text: (string, nat))
    ensures text.0 != ""
  {
    match format
    case "email" => ("user@example.com", pos)
    case "uuid" =>
      (Hex(g.draws(pos), 8) + "-" + Hex(g.draws(pos + 1), 4) + "-4000-8000-" + Hex(g.draws(pos + 2), 12), pos + 3)
    case "date" => ("2025-01-01", pos)
    case "date-time" => ("2025-01-01T00:00:00Z", pos)
    case "uri" => ("https://example.com/resource", pos)
    case "url" => ("https://example.com/resource", pos)
    case "ipv4" => ("203.0.113.10", pos)
    case "ipv6" => ("2001:db8::1", pos)
    case _ => ("value-" + Itoa(g.draws(pos) % 100000), pos + 1)
  }

  function TextOf(v: Json): string {
    if v.Str? then TrimSpace(v.s) else ""
  }

  /** Pads with `x` up to the minimum, then cuts at a positive maximum. */
  function FitLength(text: string, minLength: int, maxLength: Option<int>): string {
    var padded := if minLength > 0 && |text| < minLength then text + Repeat('x', minLength - |text|) else text;
    if maxLength.Some? && maxLength.value > 0 && |padded| > maxLength.value then padded[..maxLength.value] else padded
  }

  function IntOr(n: Option<int>, default: int): int {
    if n.Some? then n.value else default
  }

  function MakeString(g: Setup, m: Fields, pos: nat): Made {
    var (text, next) := BaseText(g, ToLower(TextOf(Field(m, "format"))), pos);
    var minLength := IntOr(NumberAsInt(g.nums, Field(m, "minLength")), 0);
    Made(Str(FitLength(text, minLength, NumberAsInt(g.nums, Field(m, "maxLength")))), next)
  }

  function MakeInteger(g: Setup, m: Fields, pos: nat): Made {
    var minimum, maximum := NumberAsFloat(g.nums, Field(m, "minimum")), NumberAsFloat(g.nums, Field(m, "maximum"));
    if g.strategy == Maximal && maximum.Some? then Made(Num(maximum.value.Floor as real), pos)
    else if minimum.Some? then Made(Num(Ceil(minimum.value) as real), pos)
    else Made(Num((g.draws(pos) % 100) as real), pos + 1)
  }

  function MakeNumber(g: Setup, m: Fields, pos: nat): Made {
    var minimum, maximum := NumberAsFloat(g.nums, Field(m, "minimum")), NumberAsFloat(g.nums, Field(m, "maximum"));
    if g.strategy == Maximal && maximum.Some? then Made(Num(maximum.value), pos)
    else if minimum.Some? then Made(Num(minimum.value), pos)
    else Made(Num((g.draws(pos) % 100) as real + 0.5), pos + 1)
  }

  /** How many items an array gets. */
  function ItemCount(strategy: Strategy, minItems: Option<int>, maxItems: Option<int>): (count: nat)
    ensures count >= 1
  {
    var count :=
      if strategy == Maximal then
        var wanted := if maxItems.Some? && maxItems.value > 0 then maxItems.value else 3;
        var capped := if wanted > 8 then 8 else wanted;
        if minItems.Some? && capped < minItems.value then minItems.value else capped
      else if minItems.Some? && minItems.value > 1 then minItems.value
      else 1;
    if count <= 0 then 1 else count
  }

  function CountFor(g: Setup, m: Fields): (count: nat)
    ensures count >= 1
  {
    ItemCount(g.strategy, NumberAsInt(g.nums, Field(m, "minItems")), NumberAsInt(g.nums, Field(m, "maxItems")))
  }

  // ------------------------------------------------------------- what is generated

  /** The keys an object gets from its properties. */
  ghost function GeneratedKeys(strategy: Strategy, m: Fields): set<string> {
    set key | key in Properties(m) && (strategy == Maximal || key in RequiredKeys(m))
  }

  /** `generate`, at a nesting depth and a position in the draws. */
  ghost function Gen(g: Setup, schema: Json, depth: nat, pos: nat): Made
    decreases 40 - depth, 1, 0
  {
    if depth > MAX_DEPTH || !schema.Obj? || schema.fields == map[] then Made(Null, pos)
    else GenNode(g, schema.fields, depth, pos)
  }

  /** The keyword that decides: example, enum, `oneOf`, `anyOf`, `allOf`, then the type. */
  ghost function GenNode(g: Setup, m: Fields, depth: nat, pos: nat): Made
    requires depth <= MAX_DEPTH
    decreases 40 - depth, 0, 1
  {
    if FirstExample(m).Some? then Made(FirstExample(m).value, pos)
    else if Options(m, "enum") != [] then Made(Clone(Options(m, "enum")[0]), pos)
    else if Options(m, "oneOf") != [] then
      var options := Options(m, "oneOf");
      Gen(g, options[Choose(g.strategy, |options|)], depth + 1, pos)
    else if Options(m, "anyOf") != [] then
      var options := Options(m, "anyOf");
      Gen(g, options[Choose(g.strategy, |options|)], depth + 1, pos)
    else if Options(m, "allOf") != [] then
      var parts := GenAllOf(g, Options(m, "allOf"), depth + 2, pos, |Options(m, "allOf")|);
      if parts.merged == 0 then Made(Null, parts.pos) else Made(Json.Obj(parts.out), parts.pos)
    else GenTyped(g, m, depth, pos)
  }

  ghost function GenTyped(g: Setup, m: Fields, depth: nat, pos: nat): Made
    requires depth <= MAX_DEPTH
    decreases 40 - depth, 0, 0
  {
    match TypeOrInfer(m)
    case "object" =>
      var props := GenObject(g, m, depth + 2, pos);
      Made(Json.Obj(props.out), props.pos)
    case "array" =>
      var items := GenItems(g, Field(m, "items"), depth + 2, pos, CountFor(g, m));
      Made(Arr(items.out), items.pos)
    case "integer" => MakeInteger(g, m, pos)
    case "number" => MakeNumber(g, m, pos)
    case "boolean" => Made(Bool(true), pos)
    case "null" => Made(Null, pos)
    case _ => MakeString(g, m, pos)
  }

  datatype Parts = Parts(out: Fields, merged: nat, pos: nat)

  /** The first `n` branches of an `allOf`, merged; non-objects are skipped. */
  ghost function GenAllOf(g: Setup, options: seq<Json>, depth: nat, pos: nat, n: nat): Parts
    requires n <= |options| && depth <= MAX_DEPTH + 2
    decreases 40 - depth, 2, n
  {
    if n == 0 then Parts(map[], 0, pos)
    else
      var before := GenAllOf(g, options, depth, pos, n - 1);
      var part := Gen(g, options[n - 1], depth, before.pos);
      if part.value.Obj? then Parts(Merge(before.out, part.value), before.merged + 1, part.pos)
      else before.(pos := part.pos)
  }

  datatype Props = Props(out: Fields, pos: nat)

  ghost function GenObject(g: Setup, m: Fields, depth: nat, pos: nat): Props
    requires depth <= MAX_DEPTH + 2
    decreases 40 - depth, 3, 0
  {
    if Properties(m) == map[] then Props(map[], pos)
    else
      var keys := SortedKeys(GeneratedKeys(g.strategy, m));
      var props := GenProps(g, Properties(m), keys, depth, pos, |keys|);
      Props(WithMissing(props.out, RequiredKeys(m)), props.pos)
  }

  /** The first `n` of the listed properties. */
  ghost function GenProps(g: Setup, props: Fields, keys: seq<string>, depth: nat, pos: nat, n: nat): Props
    requires n <= |keys| && depth <= MAX_DEPTH + 2
    requires forall key :: key in keys ==> key in props
    decreases 40 - depth, 2, n
  {
    if n == 0 then Props(map[], pos)
    else
      var before := GenProps(g, props, keys, depth, pos, n - 1);
      var made := Gen(g, props[keys[n - 1]], depth, before.pos);
      Props(before.out[keys[n - 1] := made.value], made.pos)
  }

  /** Required keys that no property defines become the text `value`. */
  ghost function WithMissing(out: Fields, required: set<string>): Fields {
    map key | key in out.Keys + required :: if key in out then out[key] else Str("value")
  }

  datatype Items = Items(out: seq<Json>, pos: nat)

  ghost function GenItems(g: Setup, items: Json, depth: nat, pos: nat, n: nat): (made: Items)
    requires depth <= MAX_DEPTH + 2
    ensures |made.out| == n
    decreases 40 - depth, 2, n
  {
    if n == 0 then Items([], pos)
    else
      var before := GenItems(g, items, depth, pos, n - 1);
      var made := Gen(g, items, depth, before.pos);
      Items(before.out + [made.value], made.pos)
  }

  // -------------------------------------------------------------------- the class

  /** `payloadGenerator`: the random source is a stream of draws and a position in it. */
  class PayloadGenerator {
    const setup: Setup
    var pos: nat
    var warnings: seq<string>

    constructor (setup: Setup)
      ensures this.setup == setup && pos == 0 && warnings == []
    {
      this.setup := setup;
      pos, warnings := 0, [];
    }

    method Warn(message: string)
      modifies this
      ensures pos == old(pos)
      ensures warnings == if TrimSpace(message) == "" then old(warnings) else old(warnings) + [message]
    {
      if TrimSpace(message) != "" {
        warnings := warnings + [message];
      }
    }

    method Generate(schema: Json, path: string, depth: nat) returns (value: Json)
      modifies this
      ensures Made(value, pos) == Gen(setup, schema, depth, old(pos))
      ensures old(warnings) <= warnings
      decreases 40 - depth, 1
    {
      if depth > MAX_DEPTH {
        Warn("max schema nesting depth reached at " + path);
        return Null;
      }
      if !schema.Obj? || schema.fields == map[] {
        return Null;
      }
      var m := schema.fields;
      var example := FirstExample(m);
      if example.Some? {
        return example.value;
      }
      if Options(m, "enum") != [] {
        return Clone(Options(m, "enum")[0]);
      }
      var options := Options(m, "oneOf");
      if options != [] {
        var idx := Choose(setup.strategy, |options|);
        Warn("oneOf at " + path + ": selected option " + Itoa(idx) + ", other options are conditional");
        value := Generate(options[idx], path + "/oneOf/" + Itoa(idx), depth + 1);
        return;
      }
      options := Options(m, "anyOf");
      if options != [] {
        var idx := Choose(setup.strategy, |options|);
        Warn("anyOf at " + path + ": selected option " + Itoa(idx) + ", other options are conditional");
        value := Generate(options[idx], path + "/anyOf/" + Itoa(idx), depth + 1);
        return;
      }
      options := Options(m, "allOf");
      if options != [] {
        value := GenerateAllOf(options, path, depth + 1);
        return;
      }
      value := GenerateTyped(m, path, depth);
    }

    method GenerateTyped(m: Fields, path: string, depth: nat) returns (value: Json)
      requires depth <= MAX_DEPTH
      modifies this
      ensures Made(value, pos) == GenTyped(setup, m, depth, old(pos))
      ensures old(warnings) <= warnings
      decreases 40 - depth, 0
    {
      hide TypeOrInfer, MakeString, MakeInteger, MakeNumber, TextOf;
      match TypeOrInfer(m) {
        case "object" =>
          var out := GenerateObject(m, path, depth + 1);
          value := Json.Obj(out);
        case "array" =>
          var out := GenerateArray(m, path, depth + 1);
          value := Arr(out);
        case "integer" =>
          var made := MakeInteger(setup, m, pos);
          value, pos := made.value, made.pos;
        case "number" =>
          var made := MakeNumber(setup, m, pos);
          value, pos := made.value, made.pos;
        case "boolean" => value := Bool(true);
        case "null" => value := Null;
        case _ =>
          var made := MakeString(setup, m, pos);
          value, pos := made.value, made.pos;
          if TextOf(Field(m, "pattern")) != "" {
            Warn("pattern constraint is not fully synthesized; generated fallback string");
          }
      }
    }

    method GenerateAllOf(options: seq<Json>, path: string, depth: nat) returns (value: Json)
      requires depth <= MAX_DEPTH + 1
      modifies this
      ensures var parts := GenAllOf(setup, options, depth + 1, old(pos), |options|);
              pos == parts.pos && value == if parts.merged == 0 then Null else Json.Obj(parts.out)
      ensures old(warnings) <= warnings
      decreases 40 - depth, 0
    {
      hide Gen, GenNode, GenTyped, Merge, TrimSpace, Itoa;
      var merged: Fields, mergedCount: nat := map[], 0;
      for idx := 0 to |options|
        invariant Parts(merged, mergedCount, pos) == GenAllOf(setup, options, depth + 1, old(pos), idx)
        invariant old(warnings) <= warnings
      {
        var part := Generate(options[idx], path + "/allOf/" + Itoa(idx), depth + 1);
        if !part.Obj? {
          Warn("allOf at " + path + " contains non-object option " + Itoa(idx));
        } else {
          merged := DeepMergeMaps(merged, part);
          mergedCount := mergedCount + 1;
        }
      }
      return if mergedCount == 0 then Null else Json.Obj(merged);
    }

    method GenerateObject(m: Fields, path: string, depth: nat) returns (out: Fields)
      requires depth <= MAX_DEPTH + 1
      modifies this
      ensures Props(out, pos) == GenObject(setup, m, depth + 1, old(pos))
      ensures old(warnings) <= warnings
      decreases 40 - depth, 0
    {
      var props := Properties(m);
      out := map[];
      if props == map[] {
        return;
      }
      var required, keys := ListKeys(m);
      for i := 0 to |keys|
        invariant Props(out, pos) == GenProps(setup, props, keys, depth + 1, old(pos), i)
        invariant old(warnings) <= warnings
      {
        var value := Generate(props[keys[i]], path + "/" + keys[i], depth + 1);
        out := out[keys[i] := value];
      }
      out := AddMissing(out, required, path);
    }

    method ListKeys(m: Fields) returns (required: seq<string>, keys: seq<string>)
      ensures Elements(required) == RequiredKeys(m)
      ensures keys == SortedKeys(GeneratedKeys(setup.strategy, m))
      ensures forall i :: 0 <= i < |keys| ==> keys[i] in Properties(m)
    {
      required := SchemaRequired(m);
      var wanted := set key | key in Properties(m) && (setup.strategy == Maximal || key in required);
      assert forall key :: key in required <==> key in Elements(required);
      assert wanted == GeneratedKeys(setup.strategy, m);
      keys := SortedKeys(wanted);
      assert forall i :: 0 <= i < |keys| ==> keys[i] in keys;
    }

    method AddMissing(generated: Fields, required: seq<string>, path: string) returns (out: Fields)
      modifies this
      ensures out == WithMissing(generated, Elements(required)) && pos == old(pos)
      ensures old(warnings) <= warnings
    {
      out := generated;
      for i := 0 to |required|
        invariant out.Keys == generated.Keys + Elements(required[..i])
        invariant forall key :: key in out ==> out[key] == if key in generated then generated[key] else Str("value")
        invariant pos == old(pos) && old(warnings) <= warnings
      {
        assert required[..i + 1] == required[..i] + [required[i]];
        if required[i] !in out {
          Warn("required property " + required[i] + " at " + path + " is not defined in properties");
          out := out[required[i] := Str("value")];
        }
      }
      assert required[..|required|] == required;
    }

    method GenerateArray(m: Fields, path: string, depth: nat) returns (out: seq<Json>)
      requires depth <= MAX_DEPTH + 1
      modifies this
      ensures Items(out, pos) == GenItems(setup, Field(m, "items"), depth + 1, old(pos), CountFor(setup, m))
      ensures old(warnings) <= warnings
      decreases 40 - depth, 0
    {
      var items := Field(m, "items");
      var count := CountFor(setup, m);
      out := [];
      for i := 0 to count
        invariant Items(out, pos) == GenItems(setup, items, depth + 1, old(pos), i)
        invariant old(warnings) <= warnings
      {
        var value := Generate(items, path + "/items/" + Itoa(i), depth + 1);
        out := out + [value];
      }
    }
  }
}
