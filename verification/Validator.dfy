/** The schema validator: a list of issues computed branch by branch, proved to be
    empty exactly when the value has the meaning its schema states. */
module Validator {
  import opened Text
  import opened Json

  // ------------------------------------------------------ reading a schema node

  function FirstTypeName(items: seq<Json>): string {
    if items == [] then ""
    else if items[0].Str? && TrimSpace(items[0].s) != "" then ToLower(TrimSpace(items[0].s))
    else FirstTypeName(items[1..])
  }

  /** The declared type; a `[]string` of types counts as none. */
  function SchemaType(m: Fields): string {
    match Field(m, "type")
    case Str(s) => ToLower(TrimSpace(s))
    case Arr(items) => FirstTypeName(items)
    case _ => ""
  }

  /** The branches under a composite keyword, as far as the validator sees them. */
  function Branches(m: Fields, keyword: string): seq<Json> {
    var raw := Field(m, keyword);
    if raw.Arr? then raw.items else []
  }

  function Properties(m: Fields): Fields {
    var raw := Field(m, "properties");
    if raw.Obj? then raw.fields else map[]
  }

  /** The keys a schema requires: its non-blank texts, trimmed. */
  ghost function RequiredKeys(m: Fields): set<string> {
    match Field(m, "required")
    case Arr(items) => set item | item in items && item.Str? && TrimSpace(item.s) != "" :: TrimSpace(item.s)
    case Strs(texts) => set text | text in texts && TrimSpace(text) != "" :: TrimSpace(text)
    case _ => {}
  }

  // -------------------------------------------------------- what a schema means

  predicate IsIntegral(n: real) {
    n == n.Floor as real
  }

  /** The JSON types a schema can name; any other name accepts every value. */
  predicate HasType(name: string, value: Json) {
    match name
    case "object" => value.Obj?
    case "array" => value.Arr?
    case "string" => value.Str?
    case "boolean" => value.Bool?
    case "integer" => value.Num? && IsIntegral(value.n)
    case "number" => value.Num?
    case _ => true
  }

  /** `value` satisfies `schema`: every keyword the schema carries holds of it. */
  ghost predicate Satisfies(nums: Numerals, value: Json, schema: Json)
    decreases schema, 1
  {
    schema.Obj? ==>
      && MeetsAllOf(nums, value, schema)
      && MeetsAnyOf(nums, value, schema)
      && MeetsOneOf(nums, value, schema)
      && HasType(SchemaType(schema.fields), value)
      && MeetsObject(nums, value, schema)
      && MeetsArray(nums, value, schema)
      && MeetsEnum(nums, value, schema.fields)
  }

  ghost predicate MeetsAllOf(nums: Numerals, value: Json, schema: Json)
    requires schema.Obj?
    decreases schema, 0
  {
    var branches := Branches(schema.fields, "allOf");
    forall i :: 0 <= i < |branches| ==> Satisfies(nums, value, branches[i])
  }

  ghost predicate MeetsAnyOf(nums: Numerals, value: Json, schema: Json)
    requires schema.Obj?
    decreases schema, 0
  {
    var branches := Branches(schema.fields, "anyOf");
    branches == [] || exists i :: 0 <= i < |branches| && Satisfies(nums, value, branches[i])
  }

  /** Exactly one branch of `oneOf` accepts the value. */
  ghost predicate MeetsOneOf(nums: Numerals, value: Json, schema: Json)
    requires schema.Obj?
    decreases schema, 0
  {
    var branches := Branches(schema.fields, "oneOf");
    branches == [] ||
    exists i :: 0 <= i < |branches| && Satisfies(nums, value, branches[i]) && OthersRefuse(nums, value, branches, i)
  }

  ghost predicate OthersRefuse(nums: Numerals, value: Json, branches: seq<Json>, i: nat)
    decreases branches
  {
    forall j :: 0 <= j < |branches| && j != i ==> !Satisfies(nums, value, branches[j])
  }

  /** Required keys and properties count only under a declared type `object`. */
  ghost predicate MeetsObject(nums: Numerals, value: Json, schema: Json)
    requires schema.Obj?
    decreases schema, 0
  {
    SchemaType(schema.fields) == "object" && value.Obj? ==>
      && (forall key :: key in RequiredKeys(schema.fields) ==> key in value.fields)
      && (var props := Properties(schema.fields);
          forall key :: key in props && key in value.fields ==> Satisfies(nums, value.fields[key], props[key]))
  }

  ghost predicate MeetsArray(nums: Numerals, value: Json, schema: Json)
    requires schema.Obj?
    decreases schema, 0
  {
    SchemaType(schema.fields) == "array" && value.Arr? && "items" in schema.fields ==>
      forall i :: 0 <= i < |value.items| ==> Satisfies(nums, value.items[i], schema.fields["items"])
  }

  /** Enum membership compares printed forms, not values. */
  ghost predicate MeetsEnum(nums: Numerals, value: Json, m: Fields) {
    var allowed := Branches(m, "enum");
    allowed == [] || exists i :: 0 <= i < |allowed| && Render(nums, allowed[i]) == Render(nums, value)
  }

  // --------------------------------------------------------------- uniqueStrings

  /** First occurrences of the trimmed, non-blank strings, in order. */
  function Unique(values: seq<string>): seq<string> {
    if values == [] then []
    else
      var before := Unique(values[..|values| - 1]);
      var item := TrimSpace(values[|values| - 1]);
      if item == "" || item in before then before else before + [item]
  }

  /** Deduplication keeps each visible string once, trimmed, and nothing else. */
  lemma {:induction false} UniqueFacts(values: seq<string>)
    ensures forall x :: x in Unique(values) <==> x != "" && exists v :: v in values && TrimSpace(v) == x
    ensures forall i, j :: 0 <= i < j < |Unique(values)| ==> Unique(values)[i] != Unique(values)[j]
  {
    if values != [] {
      var front, last := values[..|values| - 1], values[|values| - 1];
      UniqueFacts(front);
      assert values == front + [last];
      forall x ensures x in Unique(values) <==> x != "" && exists v :: v in values && TrimSpace(v) == x {
        if x in Unique(front) {
          var v :| v in front && TrimSpace(v) == x;
          assert v in values;
        }
        assert last in values;
      }
    }
  }

  /** The place where a trimmed string first occurs. */
  predicate FirstAt(values: seq<string>, x: string, i: int) {
    0 <= i < |values| && TrimSpace(values[i]) == x && forall j :: 0 <= j < i ==> TrimSpace(values[j]) != x
  }

  ghost predicate FirstBefore(values: seq<string>, x: string, y: string) {
    exists i, j :: i < j && FirstAt(values, x, i) && FirstAt(values, y, j)
  }

  /** And it keeps them in the order of their first occurrences. */
  lemma {:induction false} UniqueInOrder(values: seq<string>)
    ensures forall i, j :: 0 <= i < j < |Unique(values)| ==> FirstBefore(values, Unique(values)[i], Unique(values)[j])
  {
    hide TrimSpace;
    if values != [] {
      var front, n := values[..|values| - 1], |values| - 1;
      var before, out, item := Unique(front), Unique(values), TrimSpace(values[n]);
      UniqueInOrder(front);
      UniqueFacts(front);
      forall i, j | 0 <= i < j < |out| ensures FirstBefore(values, out[i], out[j]) {
        if j < |before| {
          assert FirstBefore(front, before[i], before[j]);
          var a, b :| a < b && FirstAt(front, before[i], a) && FirstAt(front, before[j], b);
          assert FirstAt(values, out[i], a) && FirstAt(values, out[j], b);
        } else {
          assert before[i] in before;
          var v :| v in front && TrimSpace(v) == before[i];
          var k :| 0 <= k < |front| && front[k] == v;
          var a := FirstPlace(front, before[i], k);
          assert FirstAt(values, out[i], a) && a < n;
          assert FirstAt(values, item, n);
        }
      }
    }
  }

  lemma {:induction false} FirstPlace(values: seq<string>, x: string, k: int) returns (i: int)
    requires 0 <= k < |values| && TrimSpace(values[k]) == x
    ensures FirstAt(values, x, i) && i <= k
    decreases k
  {
    hide TrimSpace;
    if FirstAt(values, x, k) {
      i := k;
    } else {
      var j :| 0 <= j < k && TrimSpace(values[j]) == x;
      i := FirstPlace(values, x, j);
    }
  }

  method UniqueStrings(values: seq<string>) returns (out: seq<string>)
    ensures out == Unique(values)
  {
    hide TrimSpace;
    out := [];
    var seen := {};
    for i := 0 to |values|
      invariant out == Unique(values[..i])
      invariant seen == Elements(out)
    {
      assert values[..i + 1][..i] == values[..i];
      var item := TrimSpace(values[i]);
      if item != "" && item !in seen {
        seen := seen + {item};
        out := out + [item];
      }
    }
    assert values[..|values|] == values;
  }

  /** Every string shows something after trimming, so deduplication cannot empty the list. */
  ghost predicate Visible(issues: seq<string>) {
    forall issue :: issue in issues ==> TrimSpace(issue) != ""
  }

  lemma UniqueKeepsVerdict(issues: seq<string>)
    requires Visible(issues)
    ensures Unique(issues) == [] <==> issues == []
    ensures Visible(Unique(issues))
  {
    UniqueFacts(issues);
    if issues != [] {
      assert issues[0] in issues;
      assert TrimSpace(issues[0]) in Unique(issues);
    }
    forall x | x in Unique(issues) ensures TrimSpace(x) != "" {
      var v :| v in issues && TrimSpace(v) == x;
      TrimSpaceFacts(v);
    }
  }

  // ------------------------------------------------------------------ the checks

  method SchemaRequired(m: Fields) returns (keys: seq<string>)
    ensures Elements(keys) == RequiredKeys(m)
    ensures forall i, j :: 0 <= i < j < |keys| ==> keys[i] != keys[j]
  {
    match Field(m, "required") {
      case Arr(items) =>
        var out: seq<string> := [];
        for i := 0 to |items|
          invariant forall x :: x in out <==>
                      exists j :: 0 <= j < i && items[j].Str? && TrimSpace(items[j].s) != "" && x == TrimSpace(items[j].s)
        {
          if items[i].Str? && TrimSpace(items[i].s) != "" {
            out := out + [TrimSpace(items[i].s)];
          }
        }
        forall x | x in out ensures TrimSpace(x) == x != "" {
          var j :| 0 <= j < |items| && items[j].Str? && x == TrimSpace(items[j].s);
          TrimSpaceFacts(items[j].s);
        }
        keys := UniqueStrings(out);
        UniqueFacts(out);
        forall x ensures x in keys <==> x in RequiredKeys(m) {
          if x in RequiredKeys(m) {
            var item :| item in items && item.Str? && TrimSpace(item.s) != "" && x == TrimSpace(item.s);
            var j :| 0 <= j < |items| && items[j] == item;
            assert x in out;
          }
        }
      case Strs(texts) =>
        keys := UniqueStrings(texts);
        UniqueFacts(texts);
      case _ =>
        keys := [];
    }
  }

  method EnumContains(nums: Numerals, allowed: seq<Json>, value: Json) returns (found: bool)
    ensures found <==> exists i :: 0 <= i < |allowed| && Render(nums, allowed[i]) == Render(nums, value)
  {
    for i := 0 to |allowed|
      invariant forall j :: 0 <= j < i ==> Render(nums, allowed[j]) != Render(nums, value)
    {
      if Render(nums, allowed[i]) == Render(nums, value) {
        return true;
      }
    }
    return false;
  }

  /** Adds one issue unless the check held. The text starts with a visible character
      after at most one space, so the issue is visible whatever the path is. */
  method ReportUnless(ok: bool, issues: seq<string>, path: string, text: string) returns (out: seq<string>)
    requires Visible(issues)
    requires |text| > 1 && (!IsSpace(text[0]) || !IsSpace(text[1]))
    ensures out == if ok then issues else issues + [path + text]
    ensures Visible(out) && (out == [] <==> ok && issues == [])
  {
    if ok {
      return issues;
    }
    var i := if IsSpace(text[0]) then 1 else 0;
    assert (path + text)[|path| + i] == text[i];
    VisibleSurvives(path + text, |path| + i);
    out := issues + [path + text];
  }

  method ValidateAllOf(nums: Numerals, value: Json, schema: Json, path: string) returns (issues: seq<string>)
    requires schema.Obj?
    ensures issues == [] <==> MeetsAllOf(nums, value, schema)
    ensures Visible(issues)
    decreases schema, 0
  {
    issues := [];
    var branches := Branches(schema.fields, "allOf");
    for i := 0 to |branches|
      invariant Visible(issues)
      invariant issues == [] <==> forall j :: 0 <= j < i ==> Satisfies(nums, value, branches[j])
    {
      var found := ValidateValue(nums, value, branches[i], path + ".allOf[" + Itoa(i) + "]");
      issues := issues + found;
    }
  }

  method MatchesAnyOf(nums: Numerals, value: Json, schema: Json) returns (ok: bool)
    requires schema.Obj?
    ensures ok <==> MeetsAnyOf(nums, value, schema)
    decreases schema, 0
  {
    var branches := Branches(schema.fields, "anyOf");
    for i := 0 to |branches|
      invariant forall j :: 0 <= j < i ==> !Satisfies(nums, value, branches[j])
    {
      var issues := ValidateValue(nums, value, branches[i], "value");
      if issues == [] {
        return true;
      }
    }
    return branches == [];
  }

  /** `oneOf` by counting the branches that accept the value. */
  method MatchesOneOf(nums: Numerals, value: Json, schema: Json, path: string) returns (ok: bool)
    requires schema.Obj?
    ensures ok <==> MeetsOneOf(nums, value, schema)
    decreases schema, 0
  {
    var branches := Branches(schema.fields, "oneOf");
    var matches := 0;
    ghost var first := 0;
    for i := 0 to |branches|
      invariant matches >= 0
      invariant matches == 0 ==> forall j :: 0 <= j < i ==> !Satisfies(nums, value, branches[j])
      invariant matches >= 1 ==> 0 <= first < i && Satisfies(nums, value, branches[first])
      invariant matches == 1 ==> forall j :: 0 <= j < i && j != first ==> !Satisfies(nums, value, branches[j])
      invariant matches >= 2 ==> exists j :: 0 <= j < i && j != first && Satisfies(nums, value, branches[j])
    {
      var found := ValidateValue(nums, value, branches[i], path);
      if found == [] {
        if matches == 0 {
          first := i;
        }
        matches := matches + 1;
      }
    }
    assert matches == 1 ==> OthersRefuse(nums, value, branches, first);
    return branches == [] || matches == 1;
  }

  /** No issues exactly when the value satisfies the schema, whatever the path. */
  method ValidateValue(nums: Numerals, value: Json, schema: Json, path: string) returns (issues: seq<string>)
    ensures issues == [] <==> Satisfies(nums, value, schema)
    ensures Visible(issues)
    decreases schema
  {
    if !schema.Obj? {
      return [];
    }
    var m := schema.fields;
    issues := ValidateComposites(nums, value, schema, path);

    var typeName := SchemaType(m);
    if typeName != "" && !HasType(typeName, value) {
      issues := ReportUnless(false, issues, path, ": expected " + typeName);
      UniqueKeepsVerdict(issues);
      issues := UniqueStrings(issues);
      return;
    }

    var found := ValidateTyped(nums, value, schema, path);
    issues := issues + found;
    UniqueKeepsVerdict(issues);
    issues := UniqueStrings(issues);
  }

  /** What is left once the type fits: the object, array and enum checks. */
  method ValidateTyped(nums: Numerals, value: Json, schema: Json, path: string) returns (issues: seq<string>)
    requires schema.Obj? && HasType(SchemaType(schema.fields), value)
    ensures issues == [] <==>
            MeetsObject(nums, value, schema) && MeetsArray(nums, value, schema) && MeetsEnum(nums, value, schema.fields)
    ensures Visible(issues)
    decreases schema, 1
  {
    hide MeetsObject, MeetsArray, Render, TrimSpace, SchemaType;
    var objectIssues := ValidateObject(nums, value, schema, path);
    var arrayIssues := ValidateArray(nums, value, schema, path);
    issues := objectIssues + arrayIssues;
    var allowed := Branches(schema.fields, "enum");
    if allowed != [] {
      var listed := EnumContains(nums, allowed, value);
      issues := ReportUnless(listed, issues, path, " is not in enum");
    }
  }

  /** The composite keywords, in the order `allOf`, `anyOf`, `oneOf`. */
  method ValidateComposites(nums: Numerals, value: Json, schema: Json, path: string) returns (issues: seq<string>)
    requires schema.Obj?
    ensures issues == [] <==>
            MeetsAllOf(nums, value, schema) && MeetsAnyOf(nums, value, schema) && MeetsOneOf(nums, value, schema)
    ensures Visible(issues)
    decreases schema, 1
  {
    hide MeetsAllOf, MeetsAnyOf, MeetsOneOf, TrimSpace;
    issues := ValidateAllOf(nums, value, schema, path);
    var any := MatchesAnyOf(nums, value, schema);
    issues := ReportUnless(any, issues, path, " does not match anyOf constraints");
    var one := MatchesOneOf(nums, value, schema, path);
    issues := ReportUnless(one, issues, path, " must match exactly one schema from oneOf");
  }

  /** The first `n` items satisfy the schema. */
  ghost predicate ItemsSatisfy(nums: Numerals, items: seq<Json>, n: int, schema: Json) {
    forall j :: 0 <= j < n && j < |items| ==> Satisfies(nums, items[j], schema)
  }

  lemma OneMoreItem(nums: Numerals, items: seq<Json>, n: int, schema: Json)
    requires 0 <= n < |items|
    ensures ItemsSatisfy(nums, items, n + 1, schema) <==>
            ItemsSatisfy(nums, items, n, schema) && Satisfies(nums, items[n], schema)
  {
    hide Satisfies;
  }

  lemma AllItems(nums: Numerals, value: Json, schema: Json)
    requires schema.Obj? && value.Arr? && SchemaType(schema.fields) == "array" && "items" in schema.fields
    ensures MeetsArray(nums, value, schema) <==> ItemsSatisfy(nums, value.items, |value.items|, schema.fields["items"])
  {
    hide Satisfies, SchemaType;
  }

  method ValidateArray(nums: Numerals, value: Json, schema: Json, path: string) returns (issues: seq<string>)
    requires schema.Obj? && HasType(SchemaType(schema.fields), value)
    ensures issues == [] <==> MeetsArray(nums, value, schema)
    ensures Visible(issues)
    decreases schema, 0, 1
  {
    issues := [];
    if SchemaType(schema.fields) == "array" && "items" in schema.fields {
      issues := ValidateItems(nums, value.items, schema, path);
      AllItems(nums, value, schema);
    }
  }

  method ValidateItems(nums: Numerals, values: seq<Json>, schema: Json, path: string) returns (issues: seq<string>)
    requires schema.Obj? && "items" in schema.fields
    ensures issues == [] <==> ItemsSatisfy(nums, values, |values|, schema.fields["items"])
    ensures Visible(issues)
    decreases schema, 0, 0
  {
    hide Satisfies, ItemsSatisfy, Itoa;
    issues := [];
    NoItems(nums, values, schema.fields["items"]);
    for i := 0 to |values|
      invariant Visible(issues)
      invariant issues == [] <==> ItemsSatisfy(nums, values, i, schema.fields["items"])
    {
      var found := ValidateValue(nums, values[i], schema.fields["items"], path + "[" + Itoa(i) + "]");
      OneMoreItem(nums, values, i, schema.fields["items"]);
      issues := issues + found;
    }
  }

  lemma NoItems(nums: Numerals, values: seq<Json>, schema: Json)
    ensures ItemsSatisfy(nums, values, 0, schema)
  {
  }

  /** The object part of a check; the properties are met in any order. */
  method ValidateObject(nums: Numerals, value: Json, schema: Json, path: string) returns (issues: seq<string>)
    requires schema.Obj? && HasType(SchemaType(schema.fields), value)
    ensures issues == [] <==> MeetsObject(nums, value, schema)
    ensures Visible(issues)
    decreases schema, 0
  {
    issues := [];
    if SchemaType(schema.fields) != "object" {
      return;
    }
    var required := SchemaRequired(schema.fields);
    for i := 0 to |required|
      invariant Visible(issues)
      invariant issues == [] <==> forall j :: 0 <= j < i ==> required[j] in value.fields
    {
      issues := ReportUnless(required[i] in value.fields, issues, path, "." + required[i] + " is required");
    }
    assert issues == [] <==> forall key :: key in RequiredKeys(schema.fields) ==> key in value.fields by {
      assert forall key :: key in required <==> key in Elements(required);
    }
    ghost var before := issues;
    var props := Properties(schema.fields);
    var todo := props.Keys;
    while todo != {}
      invariant todo <= props.Keys
      invariant Visible(issues)
      invariant issues == [] <==>
                  before == [] &&
                  forall key :: key in props.Keys - todo && key in value.fields ==>
                    Satisfies(nums, value.fields[key], props[key])
    {
      var key :| key in todo;
      if key in value.fields {
        var found := ValidateValue(nums, value.fields[key], props[key], path + "." + key);
        issues := issues + found;
      }
      todo := todo - {key};
    }
  }
}
