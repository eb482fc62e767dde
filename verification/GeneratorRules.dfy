/** Which keyword decides what is generated, and what it decides, said of a schema's own
    keywords: for every strategy, every stream of draws and every depth within the budget. */
module GeneratorRules {
  import opened Text
  import opened Json
  import opened Validator
  import opened Overrides
  import opened Generator
  import opened Soundness
  import opened TreeBounds
  import opened GeneratorBounds

  predicate IsNull(m: Fields, keyword: string) {
    keyword in m ==> m[keyword] == Null
  }

  // --------------------------------------------------------------------- examples

  /** Past the budget, and for what is no schema or an empty one, there is null. */
  lemma NothingToGenerate(g: Setup, schema: Json, depth: nat, pos: nat)
    requires depth > 32 || !schema.Obj? || schema == Json.Obj(map[])
    ensures Gen(g, schema, depth, pos) == Made(Null, pos)
  {
    hide GenNode;
  }

  /** A given example is copied, and nothing is drawn. */
  lemma ExampleDecides(g: Setup, m: Fields, depth: nat, pos: nat)
    requires depth <= 32 && "example" in m && m["example"] != Null
    ensures Gen(g, Json.Obj(m), depth, pos) == Made(Clone(m["example"]), pos)
  {
    hide Options, Clone;
  }

  /** Otherwise the first entry of a list of examples that is not null. */
  lemma ListedExampleDecides(g: Setup, m: Fields, depth: nat, pos: nat, i: nat)
    requires depth <= 32 && IsNull(m, "example") && "examples" in m && m["examples"].Arr?
    requires i < |m["examples"].items| && m["examples"].items[i] != Null
    requires forall j :: 0 <= j < i ==> m["examples"].items[j] == Null
    ensures Gen(g, Json.Obj(m), depth, pos) == Made(Clone(m["examples"].items[i]), pos)
  {
    hide Clone;
    FirstOfList(m["examples"].items, i);
    assert FirstExample(m) == Some(Clone(m["examples"].items[i]));
    FoundDecides(g, m, depth, pos);
  }

  /** Or the entry of the least key of an object of examples that is not null. */
  lemma NamedExampleDecides(g: Setup, m: Fields, depth: nat, pos: nat, key: string)
    requires depth <= 32 && IsNull(m, "example") && "examples" in m && m["examples"].Obj?
    requires var named := m["examples"].fields;
             key in named && named[key] != Null && forall o :: o in named && named[o] != Null && o != key ==> Less(key, o)
    ensures Gen(g, Json.Obj(m), depth, pos) == Made(Clone(m["examples"].fields[key]), pos)
  {
    hide Clone, Less, SortedKeys;
    var named := m["examples"].fields;
    FirstOfFields(named, SortedKeys(named.Keys), key);
    assert FirstExample(m) == Some(Clone(named[key]));
    FoundDecides(g, m, depth, pos);
  }

  lemma FoundDecides(g: Setup, m: Fields, depth: nat, pos: nat)
    requires depth <= 32 && FirstExample(m).Some?
    ensures Gen(g, Json.Obj(m), depth, pos) == Made(FirstExample(m).value, pos)
  {
    hide FirstExample;
    if m == map[] {
      NothingFound();
    }
  }

  lemma NothingFound()
    ensures FirstExample(map[]).None?
  {
  }

  lemma {:induction false} FirstOfList(items: seq<Json>, i: nat)
    requires i < |items| && items[i] != Null && forall j :: 0 <= j < i ==> items[j] == Null
    ensures FirstNonNull(items) == Some(items[i])
    decreases i
  {
    if i > 0 {
      FirstOfList(items[1..], i - 1);
    }
  }

  lemma {:induction false} NoneOfList(items: seq<Json>)
    requires forall j :: 0 <= j < |items| ==> items[j] == Null
    ensures FirstNonNull(items).None?
  {
    if items != [] {
      NoneOfList(items[1..]);
    }
  }

  lemma {:induction false} FirstOfFields(named: Fields, keys: seq<string>, key: string)
    requires Sorted(keys) && key in keys && key in named && named[key] != Null
    requires forall o :: o in keys && o in named && named[o] != Null && o != key ==> Less(key, o)
    ensures FirstNonNullField(named, keys) == Some(named[key])
    decreases keys
  {
    hide Less;
    var first := keys[0];
    if first == key {
      assert Field(named, keys[0]) == named[key] != Null && keys != [];
      assert FirstNonNullField(named, keys) == Some(named[keys[0]]);
    } else {
      var i :| 0 <= i < |keys| && keys[i] == key;
      assert Less(first, key);
      LessTotal(first, key);
      assert first in keys;
      assert Field(named, first) == Null;
      assert keys[1..][i - 1] == key;
      FirstOfFields(named, keys[1..], key);
    }
  }

  lemma {:induction false} NoneOfFields(named: Fields, keys: seq<string>)
    requires forall o :: o in keys ==> IsNull(named, o)
    ensures FirstNonNullField(named, keys).None?
    decreases keys
  {
    if keys != [] {
      assert keys[0] in keys && Field(named, keys[0]) == Null;
      NoneOfFields(named, keys[1..]);
    }
  }

  /** No example is given in any form. */
  ghost predicate NoExample(m: Fields) {
    && IsNull(m, "example")
    && ("examples" in m && m["examples"].Arr? ==> forall i :: 0 <= i < |m["examples"].items| ==> m["examples"].items[i] == Null)
    && ("examples" in m && m["examples"].Obj? ==> forall k :: k in m["examples"].fields ==> IsNull(m["examples"].fields, k))
    && ("examples" in m && m["examples"].Strs? ==> m["examples"].texts == [])
  }

  lemma NoExampleMeans(m: Fields)
    requires NoExample(m)
    ensures FirstExample(m).None?
  {
    hide SortedKeys, Clone;
    if "examples" in m {
      var examples := m["examples"];
      if examples.Arr? {
        NoneOfList(examples.items);
      } else if examples.Obj? {
        NoneOfFields(examples.fields, SortedKeys(examples.fields.Keys));
      }
    }
  }

  // ------------------------------------------------------------ enum and composites

  /** The keyword holds no options. */
  predicate NoOptions(m: Fields, keyword: string) {
    && (keyword in m && m[keyword].Arr? ==> m[keyword].items == [])
    && (keyword in m && m[keyword].Strs? ==> m[keyword].texts == [])
  }

  ghost predicate NoneOf(m: Fields, keywords: seq<string>) {
    forall k :: k in keywords ==> NoOptions(m, k)
  }

  lemma NoOptionsMeans(m: Fields, keyword: string)
    ensures NoOptions(m, keyword) <==> Options(m, keyword) == []
  {
  }

  ghost predicate HasOptions(m: Fields, keyword: string) {
    keyword in m && m[keyword].Arr? && m[keyword].items != []
  }

  /** Without an example, the first value of an enum is copied. */
  lemma EnumDecides(g: Setup, m: Fields, depth: nat, pos: nat)
    requires depth <= 32 && NoExample(m) && HasOptions(m, "enum")
    ensures Gen(g, Json.Obj(m), depth, pos) == Made(Clone(m["enum"].items[0]), pos)
  {
    hide FirstExample, Clone;
    NoExampleMeans(m);
  }

  /** An enum can also be a list of plain texts. */
  lemma EnumOfTextsDecides(g: Setup, m: Fields, depth: nat, pos: nat)
    requires depth <= 32 && NoExample(m) && "enum" in m && m["enum"].Strs? && m["enum"].texts != []
    ensures Gen(g, Json.Obj(m), depth, pos) == Made(Str(m["enum"].texts[0]), pos)
  {
    hide FirstExample;
    NoExampleMeans(m);
  }

  /** The option a composite keyword takes: the last one under the maximal strategy. */
  function Taken(strategy: Strategy, options: seq<Json>): Json
    requires options != []
  {
    match strategy
    case Maximal => options[|options| - 1]
    case Minimal => options[0]
    case Example => options[0]
  }

  /** Without an example and an enum, one option of `oneOf`. */
  lemma OneOfDecides(g: Setup, m: Fields, depth: nat, pos: nat)
    requires depth <= 32 && NoExample(m) && NoOptions(m, "enum") && HasOptions(m, "oneOf")
    ensures Gen(g, Json.Obj(m), depth, pos) == Gen(g, Taken(g.strategy, m["oneOf"].items), depth + 1, pos)
  {
    hide FirstExample;
    NoExampleMeans(m);
    NoOptionsMeans(m, "enum");
    assert Gen(g, Json.Obj(m), depth, pos) == GenNode(g, m, depth, pos);
  }

  /** Then one option of `anyOf`. */
  lemma AnyOfDecides(g: Setup, m: Fields, depth: nat, pos: nat)
    requires depth <= 32 && NoExample(m) && NoneOf(m, ["enum", "oneOf"]) && HasOptions(m, "anyOf")
    ensures Gen(g, Json.Obj(m), depth, pos) == Gen(g, Taken(g.strategy, m["anyOf"].items), depth + 1, pos)
  {
    hide FirstExample, Options, NoOptions;
    NoExampleMeans(m);
    NoOptionsMeans(m, "enum");
    NoOptionsMeans(m, "oneOf");
    ListIsOptions(m, "anyOf");
    assert Gen(g, Json.Obj(m), depth, pos) == GenNode(g, m, depth, pos);
  }

  lemma ListIsOptions(m: Fields, keyword: string)
    requires HasOptions(m, keyword)
    ensures Options(m, keyword) == m[keyword].items != []
  {
  }

  /** Then the merge of the objects among what the branches of `allOf` give, or null. */
  lemma AllOfDecides(g: Setup, m: Fields, depth: nat, pos: nat)
    requires depth <= 32 && NoExample(m) && NoneOf(m, ["enum", "oneOf", "anyOf"]) && HasOptions(m, "allOf")
    ensures var parts := PartValues(g, m["allOf"].items, depth + 2, pos, |m["allOf"].items|);
            Gen(g, Json.Obj(m), depth, pos).value == MergedObjects(parts)
  {
    hide FirstExample, Options, NoOptions, MergedObjects, GenAllOf, PartValues;
    NoExampleMeans(m);
    NoOptionsMeans(m, "enum");
    NoOptionsMeans(m, "oneOf");
    NoOptionsMeans(m, "anyOf");
    ListIsOptions(m, "allOf");
    assert Gen(g, Json.Obj(m), depth, pos) == GenNode(g, m, depth, pos);
    PartsMerge(g, m["allOf"].items, depth + 2, pos, |m["allOf"].items|);
  }

  // ------------------------------------------------------------------------ types

  /** Nothing but the type decides. */
  ghost predicate TypeDecides(m: Fields) {
    m != map[] && NoExample(m) && NoneOf(m, ["enum", "oneOf", "anyOf", "allOf"])
  }

  lemma TypedNode(g: Setup, m: Fields, depth: nat, pos: nat)
    requires depth <= 32 && TypeDecides(m)
    ensures Gen(g, Json.Obj(m), depth, pos) == GenTyped(g, m, depth, pos)
  {
    hide FirstExample, Options, NoOptions, GenTyped, NoExample;
    NoExampleMeans(m);
    forall k | k in ["enum", "oneOf", "anyOf", "allOf"] ensures Options(m, k) == [] {
      NoOptionsMeans(m, k);
    }
    assert Gen(g, Json.Obj(m), depth, pos) == GenNode(g, m, depth, pos);
  }

  /** The declared type, whatever its case and the spaces around it. */
  predicate Declares(m: Fields, name: string) {
    "type" in m && m["type"].Str? && ToLower(TrimSpace(m["type"].s)) == name
  }

  /** No type is declared: the properties, or else the items, tell what is meant. */
  predicate Means(m: Fields, name: string) {
    || (name != "" && Declares(m, name))
    || (name == "object" && "type" !in m && "properties" in m)
    || (name == "array" && "type" !in m && "properties" !in m && "items" in m)
  }

  lemma MeansType(m: Fields, name: string)
    requires Means(m, name)
    ensures TypeOrInfer(m) == name
  {
    hide TrimSpace, ToLower;
  }

  lemma FlagsAndNulls(g: Setup, m: Fields, depth: nat, pos: nat)
    requires depth <= 32 && TypeDecides(m)
    ensures Means(m, "boolean") ==> Gen(g, Json.Obj(m), depth, pos) == Made(Bool(true), pos)
    ensures Means(m, "null") ==> Gen(g, Json.Obj(m), depth, pos) == Made(Null, pos)
  {
    hide TypeOrInfer, TypeDecides, Means;
    TypedNode(g, m, depth, pos);
    NamesDiffer();
    if Means(m, "boolean") {
      MeansType(m, "boolean");
    }
    if Means(m, "null") {
      MeansType(m, "null");
    }
  }

  lemma NamesDiffer()
    ensures "boolean" !in ["object", "array", "integer", "number", "null", "string"]
    ensures "null" !in ["object", "array", "integer", "number", "string"]
    ensures "integer" !in ["object", "array", "number", "string"] && "number" !in ["object", "array", "string"]
    ensures "object" !in ["array", "string"] && "array" != "string"
  {
    assert |"boolean"| == 7 && |"null"| == 4 && |"integer"| == 7 && |"number"| == 6 && |"object"| == 6 && |"array"| == 5;
    assert |"string"| == 6;
    assert "boolean"[0] == 'b' && "integer"[0] == 'i' && "number"[0] == 'n' && "object"[0] == 'o' && "string"[0] == 's';
  }

  /** A declared number. */
  predicate Bound(m: Fields, keyword: string, x: real) {
    keyword in m && m[keyword] == Num(x)
  }

  predicate Unbound(m: Fields, keyword: string) {
    keyword !in m || m[keyword].Null?
  }

  /** An integer is the greatest one under the maximum for the maximal strategy, else the least
      one above the minimum, else a draw below a hundred. */
  lemma IntegersDecided(g: Setup, m: Fields, depth: nat, pos: nat)
    requires depth <= 32 && TypeDecides(m) && Means(m, "integer")
    ensures var made := Gen(g, Json.Obj(m), depth, pos);
            && made.value.Num? && IsIntegral(made.value.n)
            && (forall x :: Bound(m, "maximum", x) && g.strategy == Maximal ==>
                  made.pos == pos && made.value.n <= x < made.value.n + 1.0)
            && (forall x :: Bound(m, "minimum", x) && (g.strategy != Maximal || Unbound(m, "maximum")) ==>
                  made.pos == pos && made.value.n - 1.0 < x <= made.value.n)
            && (Unbound(m, "minimum") && (g.strategy != Maximal || Unbound(m, "maximum")) ==>
                  made == Made(Num((g.draws(pos) % 100) as real), pos + 1))
  {
    hide TypeOrInfer, TypeDecides, Means;
    TypedNode(g, m, depth, pos);
    NamesDiffer();
    MeansType(m, "integer");
    IntegerIsWhole(g, m, pos);
  }

  /** A number is the maximum for the maximal strategy, else the minimum, else a draw and a
      half. */
  lemma NumbersDecided(g: Setup, m: Fields, depth: nat, pos: nat)
    requires depth <= 32 && TypeDecides(m) && Means(m, "number")
    ensures var made := Gen(g, Json.Obj(m), depth, pos);
            && (forall x :: Bound(m, "maximum", x) && g.strategy == Maximal ==> made == Made(Num(x), pos))
            && (forall x :: Bound(m, "minimum", x) && (g.strategy != Maximal || Unbound(m, "maximum")) ==>
                  made == Made(Num(x), pos))
            && (Unbound(m, "minimum") && (g.strategy != Maximal || Unbound(m, "maximum")) ==>
                  made == Made(Num((g.draws(pos) % 100) as real + 0.5), pos + 1))
  {
    hide TypeOrInfer, TypeDecides, Means;
    TypedNode(g, m, depth, pos);
    NamesDiffer();
    MeansType(m, "number");
  }

  // ------------------------------------------------------------- arrays and objects

  /** At least one item and the declared minimum; the maximal strategy goes up to the declared
      maximum, or to three, but on its own account to no more than eight. */
  lemma ArraysDecided(g: Setup, m: Fields, depth: nat, pos: nat, lo: nat, hi: nat)
    requires depth <= 32 && TypeDecides(m) && Means(m, "array")
    requires Bound(m, "minItems", lo as real) || (lo == 0 && Unbound(m, "minItems"))
    requires (Bound(m, "maxItems", hi as real) && hi > 0) || (hi == 3 && Unbound(m, "maxItems"))
    ensures var v := Gen(g, Json.Obj(m), depth, pos).value;
            && v.Arr?
            && (g.strategy != Maximal ==> |v.items| == if lo > 1 then lo else 1)
            && (g.strategy == Maximal ==> |v.items| == if lo > 8 || lo > hi then lo else if hi > 8 then 8 else hi)
            && forall i :: 0 <= i < |v.items| ==> Generable(g, if "items" in m then m["items"] else Null, depth + 2, v.items[i])
  {
    hide TypeOrInfer, TypeDecides, Means, Generable, Gen;
    TypedNode(g, m, depth, pos);
    NamesDiffer();
    MeansType(m, "array");
    var count := CountFor(g, m);
    GenItemsFacts(g, Field(m, "items"), depth + 2, pos, count);
    assert GenTyped(g, m, depth, pos).value == Arr(GenItems(g, Field(m, "items"), depth + 2, pos, count).out);
  }

  /** An object without properties is empty. Otherwise it has its required keys, and all its
      properties under the maximal strategy; a required key without a property holds the text
      `value`. */
  lemma ObjectsDecided(g: Setup, m: Fields, depth: nat, pos: nat)
    requires depth <= 32 && TypeDecides(m) && Means(m, "object")
    ensures var v := Gen(g, Json.Obj(m), depth, pos).value;
            && v.Obj?
            && (Properties(m) == map[] ==> v.fields == map[])
            && (Properties(m) != map[] ==>
                  && (forall k :: k in v.fields <==> k in RequiredKeys(m) || (k in Properties(m) && g.strategy == Maximal))
                  && (forall k :: k in v.fields && k in Properties(m) ==> Generable(g, Properties(m)[k], depth + 2, v.fields[k]))
                  && (forall k :: k in v.fields && k !in Properties(m) ==> v.fields[k] == Str("value")))
  {
    hide TypeOrInfer, TypeDecides, Means, Generable, Gen, Properties, RequiredKeys;
    TypedNode(g, m, depth, pos);
    NamesDiffer();
    MeansType(m, "object");
    assert GenTyped(g, m, depth, pos).value == Json.Obj(GenObject(g, m, depth + 2, pos).out);
    if Properties(m) != map[] {
      var keys := SortedKeys(GeneratedKeys(g.strategy, m));
      GenPropsFacts(g, Properties(m), keys, depth + 2, pos, |keys|);
      assert keys[..|keys|] == keys;
    }
  }

  // ----------------------------------------------------------------------- strings

  /** Any other type, or none, gives a text. */
  predicate MeansText(m: Fields) {
    || ("type" in m && m["type"].Str? && ToLower(TrimSpace(m["type"].s)) !in {
          "", "object", "array", "integer", "number", "boolean", "null"})
    || ("type" !in m && "properties" !in m && "items" !in m)
  }

  lemma TextNode(g: Setup, m: Fields, depth: nat, pos: nat)
    requires depth <= 32 && TypeDecides(m) && MeansText(m)
    ensures Gen(g, Json.Obj(m), depth, pos) == MakeString(g, m, pos)
  {
    hide TypeDecides, MakeString, TrimSpace, ToLower;
    TypedNode(g, m, depth, pos);
    assert TypeOrInfer(m) !in {"object", "array", "integer", "number", "boolean", "null"};
  }

  predicate HasFormat(m: Fields, name: string) {
    "format" in m && m["format"].Str? && ToLower(TrimSpace(m["format"].s)) == name
  }

  predicate AnyLength(m: Fields) {
    Unbound(m, "minLength") && Unbound(m, "maxLength")
  }

  /** The text of every format when no lengths are declared; only identifiers and texts of no
      known format are drawn. */
  lemma FormatsDecided(g: Setup, m: Fields, depth: nat, pos: nat)
    requires depth <= 32 && TypeDecides(m) && MeansText(m) && AnyLength(m)
    ensures var made := Gen(g, Json.Obj(m), depth, pos);
            && (HasFormat(m, "email") ==> made == Made(Str("user@example.com"), pos))
            && (HasFormat(m, "date") ==> made == Made(Str("2025-01-01"), pos))
            && (HasFormat(m, "date-time") ==> made == Made(Str("2025-01-01T00:00:00Z"), pos))
            && (HasFormat(m, "uri") || HasFormat(m, "url") ==> made == Made(Str("https://example.com/resource"), pos))
            && (HasFormat(m, "ipv4") ==> made == Made(Str("203.0.113.10"), pos))
            && (HasFormat(m, "ipv6") ==> made == Made(Str("2001:db8::1"), pos))
            && ("format" !in m ==> made == Made(Str("value-" + Itoa(g.draws(pos) % 100000)), pos + 1))
            && (HasFormat(m, "uuid") ==> made.pos == pos + 3 && made.value.Str? && LooksLikeUuid(made.value.s))
  {
    hide TypeDecides, MeansText, TrimSpace, ToLower, Hex, Itoa;
    TextNode(g, m, depth, pos);
    FormatsDiffer();
    PlainLength(g, m, pos);
    if HasFormat(m, "uuid") {
      HexIsHex(g.draws(pos), 8);
      HexIsHex(g.draws(pos + 1), 4);
      HexIsHex(g.draws(pos + 2), 12);
      UuidShape(Hex(g.draws(pos), 8), Hex(g.draws(pos + 1), 4), Hex(g.draws(pos + 2), 12));
    }
    if "format" !in m {
      assert ToLower("") == "" by {
        EmptyLower();
      }
    }
  }

  lemma EmptyLower()
    ensures ToLower("") == ""
  {
  }

  lemma PlainLength(g: Setup, m: Fields, pos: nat)
    requires AnyLength(m)
    ensures var (text, next) := BaseText(g, ToLower(TextOf(Field(m, "format"))), pos);
            MakeString(g, m, pos) == Made(Str(text), next)
  {
    hide BaseText, ToLower, TextOf;
  }

  lemma FormatsDiffer()
    ensures "email" !in ["uuid", "date", "date-time", "uri", "url", "ipv4", "ipv6", ""]
    ensures "uuid" !in ["date", "date-time", "uri", "url", "ipv4", "ipv6", ""]
    ensures "date" !in ["date-time", "uri", "url", "ipv4", "ipv6", ""] && "date-time" !in ["uri", "url", "ipv4", "ipv6", ""]
    ensures "uri" !in ["url", "ipv4", "ipv6", ""] && "url" !in ["ipv4", "ipv6", ""] && "ipv4" !in ["ipv6", ""] && "ipv6" != ""
  {
    assert |"email"| == 5 && |"uuid"| == 4 && |"date"| == 4 && |"date-time"| == 9 && |"uri"| == 3 && |"url"| == 3;
    assert |"ipv4"| == 4 && |"ipv6"| == 4 && |""| == 0;
    assert "uuid"[0] == 'u' && "date"[0] == 'd' && "ipv4"[0] == 'i' && "ipv6"[3] == '6' && "ipv4"[3] == '4';
    assert "uri"[2] == 'i' && "url"[2] == 'l';
  }

  predicate IsHex(c: char) {
    '0' <= c <= '9' || 'a' <= c <= 'f'
  }

  /** Thirty-six characters: hexadecimal digits, and dashes in the four places. */
  predicate LooksLikeUuid(s: string) {
    && |s| == 36 && s[8] == s[13] == s[18] == s[23] == '-'
    && forall i :: 0 <= i < 36 && i !in [8, 13, 18, 23] ==> IsHex(s[i])
  }

  lemma {:induction false} HexIsHex(n: nat, width: nat)
    ensures forall i :: 0 <= i < width ==> IsHex(Hex(n, width)[i])
  {
    if width > 0 {
      HexIsHex(n / 16, width - 1);
    }
  }

  lemma UuidShape(a: string, b: string, c: string)
    requires |a| == 8 && |b| == 4 && |c| == 12
    requires forall i :: 0 <= i < 8 ==> IsHex(a[i])
    requires forall i :: 0 <= i < 4 ==> IsHex(b[i])
    requires forall i :: 0 <= i < 12 ==> IsHex(c[i])
    ensures LooksLikeUuid(a + "-" + b + "-4000-8000-" + c)
  {
    var middle := "-4000-8000-";
    assert |middle| == 11;
    var s := a + "-" + b + middle + c;
    assert forall i :: 0 <= i < 8 ==> s[i] == a[i];
    assert s[8] == '-';
    assert forall i :: 9 <= i < 13 ==> s[i] == b[i - 9];
    assert forall i :: 13 <= i < 24 ==> s[i] == middle[i - 13];
    assert forall i :: 24 <= i < 36 ==> s[i] == c[i - 24];
  }

  /** Declared lengths pad the text with `x` up to the minimum, and then cut it at the maximum. */
  lemma LengthsDecided(g: Setup, m: Fields, depth: nat, pos: nat, lo: nat, hi: nat)
    requires depth <= 32 && TypeDecides(m) && MeansText(m)
    requires Bound(m, "minLength", lo as real) && Bound(m, "maxLength", hi as real) && hi > 0
    ensures var base := BaseText(g, ToLower(TextOf(Field(m, "format"))), pos).0;
            var v := Gen(g, Json.Obj(m), depth, pos).value;
            && v.Str? && |v.s| == (if |base| < lo then (if lo < hi then lo else hi) else if |base| < hi then |base| else hi)
            && forall i :: 0 <= i < |v.s| ==> v.s[i] == if i < |base| then base[i] else 'x'
  {
    hide TypeDecides, MeansText, BaseText, ToLower, TextOf;
    TextNode(g, m, depth, pos);
    WholeRounds(lo);
    WholeRounds(hi);
  }

  /** A number is read as the nearest integer, halves away from zero. */
  lemma RoundIsNearest(x: real)
    ensures var n := Round(x) as real;
            if x >= 0.0 then n - 0.5 <= x < n + 0.5 else n - 0.5 < x <= n + 0.5
  {
  }

  lemma WholeRounds(n: int)
    ensures Round(n as real) == n
  {
  }
}
