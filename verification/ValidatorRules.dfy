/** The meaning of a schema keyword by keyword, said of the schema's own entries; and the
    printed forms that enum values are compared by. */
module ValidatorRules {
  import opened Text
  import opened Json
  import opened Validator

  // ------------------------------------------------------------------------ types

  predicate IsName(item: Json) {
    item.Str? && TrimSpace(item.s) != ""
  }

  /** The first name in a list of types. */
  predicate FirstName(items: seq<Json>, i: int, name: string) {
    && 0 <= i < |items| && IsName(items[i]) && ToLower(TrimSpace(items[i].s)) == name
    && forall j :: 0 <= j < i ==> !IsName(items[j])
  }

  /** The type of a schema: a text, or the first name in a list, in any case. */
  ghost predicate HasDeclared(m: Fields, name: string) {
    "type" in m &&
    match m["type"]
    case Str(s) => ToLower(TrimSpace(s)) == name
    case Arr(items) => exists i :: FirstName(items, i, name)
    case _ => false
  }

  lemma {:induction false} FirstNameMeans(items: seq<Json>, name: string)
    requires name != ""
    ensures FirstTypeName(items) == name <==> exists i :: FirstName(items, i, name)
  {
    hide TrimSpace, ToLower;
    if items != [] {
      var rest := items[1..];
      FirstNameMeans(rest, name);
      if IsName(items[0]) {
        if FirstTypeName(items) == name {
          assert FirstName(items, 0, name);
        }
      } else {
        if i :| FirstName(rest, i, name) {
          assert FirstName(items, i + 1, name);
        }
        if i :| FirstName(items, i, name) {
          assert i > 0 && rest[i - 1] == items[i];
          assert forall j :: 0 <= j < i - 1 ==> rest[j] == items[j + 1];
          assert FirstName(rest, i - 1, name);
        }
      }
    }
  }

  lemma DeclaredMeans(m: Fields, name: string)
    requires name != ""
    ensures SchemaType(m) == name <==> HasDeclared(m, name)
  {
    hide TrimSpace, ToLower, FirstName, FirstTypeName;
    if "type" in m && m["type"].Arr? {
      FirstNameMeans(m["type"].items, name);
    }
  }

  /** The six types that mean something; any other name takes every value. */
  ghost predicate TypeHolds(value: Json, m: Fields) {
    && (HasDeclared(m, "object") ==> value.Obj?)
    && (HasDeclared(m, "array") ==> value.Arr?)
    && (HasDeclared(m, "string") ==> value.Str?)
    && (HasDeclared(m, "boolean") ==> value.Bool?)
    && (HasDeclared(m, "number") ==> value.Num?)
    && (HasDeclared(m, "integer") ==> exists k: int :: IsInteger(value, k))
  }

  predicate IsInteger(value: Json, k: int) {
    value == Num(k as real)
  }

  lemma TypeMeans(value: Json, m: Fields)
    ensures HasType(SchemaType(m), value) <==> TypeHolds(value, m)
  {
    hide SchemaType, HasDeclared;
    DeclaredMeans(m, "object");
    DeclaredMeans(m, "array");
    DeclaredMeans(m, "string");
    DeclaredMeans(m, "boolean");
    DeclaredMeans(m, "number");
    DeclaredMeans(m, "integer");
    WholeMeans(value);
    assert |"object"| == 6 && |"array"| == 5 && |"string"| == 6 && |"boolean"| == 7 && |"number"| == 6 && |"integer"| == 7;
    assert "object"[0] == 'o' && "string"[0] == 's' && "number"[0] == 'n' && "boolean"[0] == 'b' && "integer"[0] == 'i';
  }

  lemma WholeMeans(value: Json)
    ensures (exists k: int :: IsInteger(value, k)) <==> value.Num? && IsIntegral(value.n)
  {
    if value.Num? && IsIntegral(value.n) {
      assert IsInteger(value, value.n.Floor);
    }
  }

  // ------------------------------------------------------------------ the keywords

  predicate IsRequired(m: Fields, key: string) {
    key != "" && "required" in m &&
    match m["required"]
    case Arr(items) => exists i :: 0 <= i < |items| && items[i].Str? && TrimSpace(items[i].s) == key
    case Strs(texts) => exists i :: 0 <= i < |texts| && TrimSpace(texts[i]) == key
    case _ => false
  }

  ghost predicate RequiredHolds(value: Json, m: Fields) {
    HasDeclared(m, "object") && value.Obj? ==> forall key :: IsRequired(m, key) ==> key in value.fields
  }

  ghost predicate PropertiesHold(nums: Numerals, value: Json, m: Fields) {
    HasDeclared(m, "object") && value.Obj? && "properties" in m && m["properties"].Obj? ==>
      forall key :: key in m["properties"].fields && key in value.fields ==>
        Satisfies(nums, value.fields[key], m["properties"].fields[key])
  }

  ghost predicate ItemsHold(nums: Numerals, value: Json, m: Fields) {
    HasDeclared(m, "array") && value.Arr? && "items" in m ==>
      forall item :: item in value.items ==> Satisfies(nums, item, m["items"])
  }

  /** The options of a keyword, if it has any. */
  predicate Offers(m: Fields, keyword: string) {
    keyword in m && m[keyword].Arr? && m[keyword].items != []
  }

  ghost predicate AllHold(nums: Numerals, value: Json, m: Fields) {
    Offers(m, "allOf") ==> forall b :: b in m["allOf"].items ==> Satisfies(nums, value, b)
  }

  ghost predicate AnyHolds(nums: Numerals, value: Json, m: Fields) {
    Offers(m, "anyOf") ==> exists b :: b in m["anyOf"].items && Satisfies(nums, value, b)
  }

  /** The positions of the branches that accept the value. */
  ghost function Accepting(nums: Numerals, value: Json, branches: seq<Json>): set<int> {
    set i | 0 <= i < |branches| && Satisfies(nums, value, branches[i])
  }

  ghost predicate OneHolds(nums: Numerals, value: Json, m: Fields) {
    Offers(m, "oneOf") ==> |Accepting(nums, value, m["oneOf"].items)| == 1
  }

  ghost predicate EnumHolds(nums: Numerals, value: Json, m: Fields) {
    Offers(m, "enum") ==> exists a :: a in m["enum"].items && Render(nums, a) == Render(nums, value)
  }

  lemma OffersMeans(m: Fields, keyword: string)
    ensures Offers(m, keyword) <==> Branches(m, keyword) != []
    ensures Offers(m, keyword) ==> Branches(m, keyword) == m[keyword].items
  {
  }

  lemma RequiredMeans(m: Fields, key: string)
    ensures IsRequired(m, key) <==> key in RequiredKeys(m)
  {
    hide TrimSpace;
    if "required" in m && m["required"].Arr? {
      var items := m["required"].items;
      if item :| item in items && item.Str? && TrimSpace(item.s) == key {
        var i :| 0 <= i < |items| && items[i] == item;
      }
    }
    if "required" in m && m["required"].Strs? {
      var texts := m["required"].texts;
      if text :| text in texts && TrimSpace(text) == key {
        var i :| 0 <= i < |texts| && texts[i] == text;
      }
    }
  }

  lemma ObjectMeans(nums: Numerals, value: Json, m: Fields)
    ensures MeetsObject(nums, value, Json.Obj(m)) <==> RequiredHolds(value, m) && PropertiesHold(nums, value, m)
  {
    hide SchemaType, HasDeclared, RequiredKeys, IsRequired, Satisfies;
    DeclaredMeans(m, "object");
    forall key ensures IsRequired(m, key) <==> key in RequiredKeys(m) {
      RequiredMeans(m, key);
    }
  }

  lemma ArrayMeans(nums: Numerals, value: Json, m: Fields)
    ensures MeetsArray(nums, value, Json.Obj(m)) <==> ItemsHold(nums, value, m)
  {
    hide SchemaType, HasDeclared, Satisfies;
    DeclaredMeans(m, "array");
    if ItemsHold(nums, value, m) && value.Arr? {
      assert forall i :: 0 <= i < |value.items| ==> value.items[i] in value.items;
    }
  }

  lemma CompositesMean(nums: Numerals, value: Json, m: Fields)
    ensures MeetsAllOf(nums, value, Json.Obj(m)) <==> AllHold(nums, value, m)
    ensures MeetsAnyOf(nums, value, Json.Obj(m)) <==> AnyHolds(nums, value, m)
    ensures MeetsEnum(nums, value, m) <==> EnumHolds(nums, value, m)
  {
    hide Satisfies, Branches, Render, Offers;
    OffersMeans(m, "allOf");
    OffersMeans(m, "anyOf");
    OffersMeans(m, "enum");
    var all, any, values := Branches(m, "allOf"), Branches(m, "anyOf"), Branches(m, "enum");
    assert forall i :: 0 <= i < |all| ==> all[i] in all;
    assert forall i :: 0 <= i < |any| ==> any[i] in any;
    assert forall i :: 0 <= i < |values| ==> values[i] in values;
  }

  lemma OneMeans(nums: Numerals, value: Json, m: Fields)
    ensures MeetsOneOf(nums, value, Json.Obj(m)) <==> OneHolds(nums, value, m)
  {
    hide Satisfies, Branches, Offers;
    OffersMeans(m, "oneOf");
    var branches := Branches(m, "oneOf");
    var accepting := Accepting(nums, value, branches);
    if branches != [] {
      if i :| 0 <= i < |branches| && Satisfies(nums, value, branches[i]) && OthersRefuse(nums, value, branches, i) {
        assert accepting == {i};
      }
      if |accepting| == 1 {
        OnlyOne(nums, value, branches);
      }
    }
  }

  lemma OnlyOne(nums: Numerals, value: Json, branches: seq<Json>)
    requires |Accepting(nums, value, branches)| == 1
    ensures exists i :: 0 <= i < |branches| && Satisfies(nums, value, branches[i]) && OthersRefuse(nums, value, branches, i)
  {
    hide Satisfies;
    var accepting := Accepting(nums, value, branches);
    var i :| i in accepting;
    assert accepting - {i} == {} by {
      assert |accepting - {i}| == 0;
    }
    forall j | 0 <= j < |branches| && j != i ensures !Satisfies(nums, value, branches[j]) {
      assert j !in accepting - {i};
    }
    assert OthersRefuse(nums, value, branches, i);
  }

  /** A value satisfies a schema if and only if every keyword of the schema holds of it. */
  lemma SatisfiesExactly(nums: Numerals, value: Json, m: Fields)
    ensures Satisfies(nums, value, Json.Obj(m)) <==>
            && TypeHolds(value, m) && RequiredHolds(value, m) && PropertiesHold(nums, value, m)
            && ItemsHold(nums, value, m) && AllHold(nums, value, m) && AnyHolds(nums, value, m)
            && OneHolds(nums, value, m) && EnumHolds(nums, value, m)
  {
    hide TypeHolds, RequiredHolds, PropertiesHold, ItemsHold, AllHold, AnyHolds, OneHolds, EnumHolds;
    TypeMeans(value, m);
    ObjectMeans(nums, value, m);
    ArrayMeans(nums, value, m);
    CompositesMean(nums, value, m);
    OneMeans(nums, value, m);
    hide HasType, SchemaType, MeetsObject, MeetsArray, MeetsAllOf, MeetsAnyOf, MeetsOneOf, MeetsEnum;
  }

  /** What is no schema object constrains nothing. */
  lemma AnythingGoes(nums: Numerals, value: Json, schema: Json)
    requires !schema.Obj?
    ensures Satisfies(nums, value, schema)
  {
  }

  // ---------------------------------------------------------------- printed forms

  ghost function Printed(nums: Numerals, items: seq<Json>): seq<string> {
    seq(|items|, i requires 0 <= i < |items| => Render(nums, items[i]))
  }

  lemma {:induction false} ItemsPrinted(nums: Numerals, v: Json, n: nat)
    requires v.Arr? && n <= |v.items|
    ensures RenderItems(nums, v, n) == Join(Printed(nums, v.items[..n]), ' ')
  {
    hide Render;
    if n > 0 {
      ItemsPrinted(nums, v, n - 1);
      JoinSnoc(Printed(nums, v.items[..n - 1]), Render(nums, v.items[n - 1]));
      assert Printed(nums, v.items[..n]) == Printed(nums, v.items[..n - 1]) + [Render(nums, v.items[n - 1])];
    }
  }

  ghost function PrintedFields(nums: Numerals, m: Fields, keys: seq<string>): seq<string>
    requires forall k :: k in keys ==> k in m
  {
    seq(|keys|, i requires 0 <= i < |keys| => keys[i] + ":" + Render(nums, m[keys[i]]))
  }

  lemma {:induction false} FieldsPrinted(nums: Numerals, v: Json, keys: seq<string>)
    requires v.Obj? && forall k :: k in keys ==> k in v.fields
    ensures RenderFields(nums, v, keys) == Join(PrintedFields(nums, v.fields, keys), ' ')
    ensures keys != [] ==> RenderFields(nums, v, keys) != ""
    decreases keys
  {
    hide Render;
    if keys != [] {
      var front, last := keys[..|keys| - 1], keys[|keys| - 1];
      var entry := last + ":" + Render(nums, v.fields[last]);
      FieldsPrinted(nums, v, front);
      JoinSnoc(PrintedFields(nums, v.fields, front), entry);
      assert PrintedFields(nums, v.fields, keys) == PrintedFields(nums, v.fields, front) + [entry];
      assert |entry| > 0;
    }
  }

  /** How every value prints. */
  lemma PrintedForms(nums: Numerals, v: Json)
    ensures match v
            case Null => Render(nums, v) == "<nil>"
            case Bool(b) => Render(nums, v) == if b then "true" else "false"
            case Num(n) => Render(nums, v) == nums.format(n)
            case Str(s) => Render(nums, v) == s
            case Arr(items) => Render(nums, v) == "[" + Join(Printed(nums, items), ' ') + "]"
            case Strs(texts) => Render(nums, v) == "[" + Join(texts, ' ') + "]"
            case Obj(m) => Render(nums, v) == "map[" + Join(PrintedFields(nums, m, SortedKeys(m.Keys)), ' ') + "]"
  {
    hide Join, SortedKeys;
    if v.Arr? {
      ItemsPrinted(nums, v, |v.items|);
      assert v.items[..|v.items|] == v.items;
    }
    if v.Obj? {
      FieldsPrinted(nums, v, SortedKeys(v.fields.Keys));
    }
  }
}
