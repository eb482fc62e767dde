/** The dynamic values that schemas, documents and bodies are made of. */
module Json {
  import opened Text

  /** Go's `any` as the server uses it. `Strs` is a Go `[]string`, which the schema
      resolver emits for `required` and for several types, and which is not a `[]any`. */
  datatype Json =
    | Null
    | Bool(b: bool)
    | Num(n: real)
    | Str(s: string)
    | Arr(items: seq<Json>)
    | Strs(texts: seq<string>)
    | Obj(fields: map<string, Json>)

  type Fields = map<string, Json>

  /** How Go prints and reads numbers: kept abstract. */
  datatype Numerals = Numerals(format: real -> string, parse: string -> Option<real>)

  function Field(m: Fields, key: string): Json {
    if key in m then m[key] else Null
  }

  function TextItems(texts: seq<string>): (items: seq<Json>)
    ensures |items| == |texts| && forall i :: 0 <= i < |texts| ==> items[i] == Str(texts[i])
  {
    seq(|texts|, i requires 0 <= i < |texts| => Str(texts[i]))
  }

  /** `cloneJSONValue`: out to JSON text and back, which turns a `[]string` into a `[]any`. */
  function Clone(v: Json): Json {
    match v
    case Arr(items) => Arr(seq(|items|, i requires 0 <= i < |items| => Clone(items[i])))
    case Strs(texts) => Arr(TextItems(texts))
    case Obj(m) => Obj(map k | k in m :: Clone(m[k]))
    case _ => v
  }

  /** Values that JSON text can carry: no `[]string` anywhere. */
  ghost predicate Plain(v: Json) {
    match v
    case Arr(items) => forall i :: 0 <= i < |items| ==> Plain(items[i])
    case Strs(_) => false
    case Obj(m) => forall k :: k in m ==> Plain(m[k])
    case _ => true
  }

  /** Cloning always yields a plain value, and is the identity exactly on plain values. */
  lemma {:induction false} CloneFacts(v: Json)
    ensures Plain(Clone(v))
    ensures Plain(v) <==> Clone(v) == v
  {
    match v
    case Arr(items) =>
      forall i | 0 <= i < |items|
        ensures Plain(Clone(items[i])) && (Plain(items[i]) <==> Clone(items[i]) == items[i])
      {
        CloneFacts(items[i]);
      }
      if Plain(v) {
        assert Clone(v).items == items;
      } else {
        var i :| 0 <= i < |items| && !Plain(items[i]);
        assert Clone(v).items[i] != items[i];
      }
    case Obj(m) =>
      forall k | k in m
        ensures Plain(Clone(m[k])) && (Plain(m[k]) <==> Clone(m[k]) == m[k])
      {
        CloneFacts(m[k]);
      }
      if Plain(v) {
        assert Clone(v).fields == m;
      } else {
        var k :| k in m && !Plain(m[k]);
        assert Clone(v).fields[k] != m[k];
      }
    case _ =>
  }

  /** `fmt.Sprintf("%v", …)`: strings are not quoted, maps print in key order. */
  function Render(nums: Numerals, v: Json): string
    decreases v, 1
  {
    match v
    case Null => "<nil>"
    case Bool(b) => if b then "true" else "false"
    case Num(n) => nums.format(n)
    case Str(s) => s
    case Arr(items) => "[" + RenderItems(nums, v, |items|) + "]"
    case Strs(texts) => "[" + Join(texts, ' ') + "]"
    case Obj(m) => "map[" + RenderFields(nums, v, SortedKeys(m.Keys)) + "]"
  }

  function RenderItems(nums: Numerals, v: Json, n: nat): string
    requires v.Arr? && n <= |v.items|
    decreases v, 0, n
  {
    if n == 0 then ""
    else if n == 1 then Render(nums, v.items[0])
    else RenderItems(nums, v, n - 1) + " " + Render(nums, v.items[n - 1])
  }

  function RenderFields(nums: Numerals, v: Json, keys: seq<string>): string
    requires v.Obj? && forall k :: k in keys ==> k in v.fields
    decreases v, 0, |keys|
  {
    if keys == [] then ""
    else
      var k := keys[|keys| - 1];
      var before := RenderFields(nums, v, keys[..|keys| - 1]);
      (if before == "" then "" else before + " ") + k + ":" + Render(nums, v.fields[k])
  }

  lemma {:induction false} RenderTexts(nums: Numerals, texts: seq<string>, n: nat)
    requires n <= |texts|
    ensures RenderItems(nums, Arr(TextItems(texts)), n) == Join(texts[..n], ' ')
  {
    if n >= 1 {
      RenderTexts(nums, texts, n - 1);
      JoinSnoc(texts[..n - 1], texts[n - 1]);
      assert texts[..n - 1] + [texts[n - 1]] == texts[..n];
    }
  }

  lemma {:induction false} JoinSnoc(parts: seq<string>, last: string)
    ensures Join(parts + [last], ' ') == if parts == [] then last else Join(parts, ' ') + " " + last
  {
    if |parts| > 1 {
      JoinSnoc(parts[1..], last);
      assert (parts + [last])[1..] == parts[1..] + [last];
    } else if |parts| == 1 {
      assert (parts + [last])[1..] == [last];
    }
  }

  /** A clone prints like the original, which is what lets an enum value survive cloning. */
  lemma {:induction false} RenderClone(nums: Numerals, v: Json)
    ensures Render(nums, Clone(v)) == Render(nums, v)
    decreases v, 1
  {
    match v
    case Arr(items) => RenderCloneItems(nums, v, |items|);
    case Strs(texts) =>
      RenderTexts(nums, texts, |texts|);
      assert texts[..|texts|] == texts;
    case Obj(m) =>
      assert Clone(v).fields.Keys == m.Keys;
      RenderCloneFields(nums, v, SortedKeys(m.Keys));
    case _ =>
  }

  lemma {:induction false} RenderCloneItems(nums: Numerals, v: Json, n: nat)
    requires v.Arr? && n <= |v.items|
    ensures RenderItems(nums, Clone(v), n) == RenderItems(nums, v, n)
    decreases v, 0, n
  {
    if n > 0 {
      RenderCloneItems(nums, v, n - 1);
      RenderClone(nums, v.items[n - 1]);
    }
  }

  lemma {:induction false} RenderCloneFields(nums: Numerals, v: Json, keys: seq<string>)
    requires v.Obj? && forall k :: k in keys ==> k in v.fields
    ensures RenderFields(nums, Clone(v), keys) == RenderFields(nums, v, keys)
    decreases v, 0, |keys|
  {
    if keys != [] {
      RenderCloneFields(nums, v, keys[..|keys| - 1]);
      RenderClone(nums, v.fields[keys[|keys| - 1]]);
    }
  }
}
