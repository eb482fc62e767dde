/** Redaction of JSON values: listed keys at any depth, also inside JSON text that is held in
    strings. JSON text is read and written by an abstract codec. */
module Redaction {
  import opened Text
  import opened Json

  const REDACTED := "[REDACTED]"

  /** `number` tells which numbers JSON text can carry exactly. */
  datatype Codec = Codec(write: Json -> string, parse: string -> Option<Json>, number: real -> bool)

  /** Values that survive the way through text. */
  ghost predicate Carried(codec: Codec, v: Json) {
    match v
    case Num(n) => codec.number(n)
    case Arr(items) => forall i :: 0 <= i < |items| ==> Carried(codec, items[i])
    case Obj(m) => forall k :: k in m ==> Carried(codec, m[k])
    case Strs(_) => false
    case _ => true
  }

  /** The text is tried as JSON only if it starts with a brace or a bracket. */
  predicate LooksLikeJson(s: string) {
    var t := TrimSpace(s);
    t != "" && (t[0] == '{' || t[0] == '[')
  }

  predicate IsContainer(v: Json) {
    v.Obj? || v.Arr?
  }

  // ------------------------------------------------------------- the text measure

  /** The characters in all string values together. */
  ghost function TextLen(v: Json): nat
    decreases v, 1, 0
  {
    match v
    case Str(s) => |s|
    case Arr(items) => ItemsLen(v, |items|)
    case Obj(m) => FieldsLen(v, SortedKeys(m.Keys))
    case _ => 0
  }

  ghost function ItemsLen(v: Json, n: nat): nat
    requires v.Arr? && n <= |v.items|
    decreases v, 0, n
  {
    if n == 0 then 0 else ItemsLen(v, n - 1) + TextLen(v.items[n - 1])
  }

  ghost function FieldsLen(v: Json, keys: seq<string>): nat
    requires v.Obj? && forall k :: k in keys ==> k in v.fields
    decreases v, 0, |keys|
  {
    if keys == [] then 0
    else FieldsLen(v, keys[..|keys| - 1]) + TextLen(v.fields[keys[|keys| - 1]])
  }

  lemma {:induction false} ItemLen(v: Json, n: nat, i: nat)
    requires v.Arr? && i < n <= |v.items|
    ensures TextLen(v.items[i]) <= ItemsLen(v, n)
    decreases n
  {
    if i < n - 1 {
      ItemLen(v, n - 1, i);
    }
  }

  lemma {:induction false} FieldLen(v: Json, keys: seq<string>, k: string)
    requires v.Obj? && k in keys && forall x :: x in keys ==> x in v.fields
    ensures TextLen(v.fields[k]) <= FieldsLen(v, keys)
    decreases |keys|
  {
    var last := |keys| - 1;
    if k != keys[last] {
      assert keys == keys[..last] + [keys[last]];
      FieldLen(v, keys[..last], k);
    }
  }

  lemma PartLen(v: Json)
    ensures v.Arr? ==> forall i :: 0 <= i < |v.items| ==> TextLen(v.items[i]) <= TextLen(v)
    ensures v.Obj? ==> forall k :: k in v.fields ==> TextLen(v.fields[k]) <= TextLen(v)
  {
    if v.Arr? {
      forall i: nat | i < |v.items| ensures TextLen(v.items[i]) <= TextLen(v) {
        ItemLen(v, |v.items|, i);
      }
    }
    if v.Obj? {
      forall k | k in v.fields ensures TextLen(v.fields[k]) <= TextLen(v) {
        FieldLen(v, SortedKeys(v.fields.Keys), k);
      }
    }
  }

  /** What is used of JSON text: reading undoes writing; objects and arrays are written with
      their bracket first and are all that such text is read as; the strings of a value are
      together shorter than the text it is read from; and "[REDACTED]" is no JSON. */
  ghost predicate Lawful(codec: Codec) {
    && (forall v :: Carried(codec, v) ==> codec.parse(codec.write(v)) == Some(v))
    && (forall v :: Carried(codec, v) && IsContainer(v) ==> LooksLikeJson(codec.write(v)))
    && (forall s :: codec.parse(s).Some? ==> Carried(codec, codec.parse(s).value) && TextLen(codec.parse(s).value) < |s|)
    && (forall s :: LooksLikeJson(s) && codec.parse(s).Some? ==> IsContainer(codec.parse(s).value))
    && codec.parse(REDACTED) == None
  }

  // ---------------------------------------------------------------- redaction

  /** The JSON value inside a string, if it is taken as JSON. */
  function Inner(codec: Codec, s: string): Option<Json> {
    if LooksLikeJson(s) then codec.parse(s) else None
  }

  /** `redactNode`. */
  ghost function Redact(codec: Codec, listed: set<string>, v: Json): Json
    requires Lawful(codec)
    decreases TextLen(v), v
  {
    PartLen(v);
    match v
    case Obj(m) => Json.Obj(map k | k in m :: if Lower(k) in listed then Str(REDACTED) else Redact(codec, listed, m[k]))
    case Arr(items) => Arr(seq(|items|, i requires 0 <= i < |items| => Redact(codec, listed, items[i])))
    case Str(s) =>
      if Inner(codec, s).Some? then Str(codec.write(Redact(codec, listed, Inner(codec, s).value))) else v
    case _ => v
  }

  /** A text that starts with a brace or a bracket, spaces aside, is redacted as the JSON it holds
      if it holds any; every other text stays. */
  lemma TextsOpened(codec: Codec, listed: set<string>, s: string)
    requires Lawful(codec)
    ensures var t := TrimSpace(s);
            Redact(codec, listed, Str(s)) ==
            if t != "" && (t[0] == '{' || t[0] == '[') && codec.parse(s).Some? then
              Str(codec.write(Redact(codec, listed, codec.parse(s).value)))
            else Str(s)
  {
    hide TrimSpace, TextLen;
  }

  /** The procedure; map keys in any order. */
  method RedactNode(codec: Codec, listed: set<string>, v: Json) returns (out: Json)
    requires Lawful(codec)
    ensures out == Redact(codec, listed, v)
    decreases TextLen(v), v, 1
  {
    hide TextLen, LooksLikeJson, Lower;
    match v {
      case Obj(_) => out := RedactFields(codec, listed, v);
      case Arr(_) => out := RedactItems(codec, listed, v);
      case Str(s) =>
        out := v;
        if LooksLikeJson(s) {
          var parsed := codec.parse(s);
          if parsed.Some? {
            StringLen(s);
            var inner := RedactNode(codec, listed, parsed.value);
            out := Str(codec.write(inner));
          }
        }
      case _ => out := v;
    }
  }

  lemma StringLen(s: string)
    ensures TextLen(Str(s)) == |s|
  {
  }

  method RedactFields(codec: Codec, listed: set<string>, v: Json) returns (out: Json)
    requires Lawful(codec) && v.Obj?
    ensures out == Redact(codec, listed, v)
    decreases TextLen(v), v, 0
  {
    hide TextLen, LooksLikeJson, Lower, Lawful, Inner;
    var m := v.fields;
    PartLen(v);
    var done: Fields := map[];
    var todo := m.Keys;
    while todo != {}
      invariant todo <= m.Keys && done.Keys == m.Keys - todo
      invariant forall k :: k in done ==>
                  done[k] == if Lower(k) in listed then Str(REDACTED) else Redact(codec, listed, m[k])
    {
      var k :| k in todo;
      if Lower(k) in listed {
        done := done[k := Str(REDACTED)];
      } else {
        var child := RedactNode(codec, listed, m[k]);
        done := done[k := child];
      }
      todo := todo - {k};
    }
    out := Json.Obj(done);
  }

  method RedactItems(codec: Codec, listed: set<string>, v: Json) returns (out: Json)
    requires Lawful(codec) && v.Arr?
    ensures out == Redact(codec, listed, v)
    decreases TextLen(v), v, 0
  {
    hide TextLen, LooksLikeJson, Lower, Lawful, Inner;
    PartLen(v);
    var done: seq<Json> := [];
    for i := 0 to |v.items|
      invariant |done| == i && forall j :: 0 <= j < i ==> done[j] == Redact(codec, listed, v.items[j])
    {
      var item := RedactNode(codec, listed, v.items[i]);
      done := done + [item];
    }
    out := Arr(done);
  }

  // ------------------------------------------------------------- what it does

  lemma {:induction false} StaysCarried(codec: Codec, listed: set<string>, v: Json)
    requires Lawful(codec) && Carried(codec, v)
    ensures Carried(codec, Redact(codec, listed, v))
    ensures IsContainer(v) ==> IsContainer(Redact(codec, listed, v))
    decreases v
  {
    hide TextLen, LooksLikeJson, Lower, Lawful, Inner;
    match v
    case Obj(m) =>
      forall k | k in m && Lower(k) !in listed ensures Carried(codec, Redact(codec, listed, m[k])) {
        StaysCarried(codec, listed, m[k]);
      }
    case Arr(items) =>
      forall i | 0 <= i < |items| ensures Carried(codec, Redact(codec, listed, items[i])) {
        StaysCarried(codec, listed, items[i]);
      }
    case _ =>
  }

  /** A string with JSON inside becomes a string with the redacted JSON inside. */
  lemma InnerOfRedacted(codec: Codec, listed: set<string>, s: string)
    requires Lawful(codec)
    ensures Redact(codec, listed, Str(s)).Str?
    ensures Inner(codec, Redact(codec, listed, Str(s)).s) ==
            if Inner(codec, s).Some? then Some(Redact(codec, listed, Inner(codec, s).value)) else None
  {
    hide TextLen, LooksLikeJson, Lower;
    if Inner(codec, s).Some? {
      StaysCarried(codec, listed, Inner(codec, s).value);
    }
  }

  /** Redacting twice is redacting once. */
  lemma {:induction false} RedactTwice(codec: Codec, listed: set<string>, v: Json)
    requires Lawful(codec)
    ensures Redact(codec, listed, Redact(codec, listed, v)) == Redact(codec, listed, v)
    decreases TextLen(v), v
  {
    hide TextLen, LooksLikeJson, Lower;
    PartLen(v);
    var once := Redact(codec, listed, v);
    match v
    case Obj(m) =>
      forall k | k in m && Lower(k) !in listed
        ensures Redact(codec, listed, once.fields[k]) == once.fields[k]
      {
        RedactTwice(codec, listed, m[k]);
      }
      assert Redact(codec, listed, once).fields == once.fields;
    case Arr(items) =>
      forall i | 0 <= i < |items| ensures Redact(codec, listed, once.items[i]) == once.items[i] {
        RedactTwice(codec, listed, items[i]);
      }
      assert Redact(codec, listed, once).items == once.items;
    case Str(s) =>
      InnerOfRedacted(codec, listed, s);
      if Inner(codec, s).Some? {
        StringLen(s);
        RedactTwice(codec, listed, Inner(codec, s).value);
      }
    case _ =>
  }

  /** One step into a value: a key, an index, or the JSON inside a string. */
  datatype Hop = Key(key: string) | Index(index: nat) | Inside

  function HopTo(codec: Codec, v: Json, hop: Hop): Option<Json> {
    match hop
    case Key(k) => if v.Obj? && k in v.fields then Some(v.fields[k]) else None
    case Index(i) => if v.Arr? && i < |v.items| then Some(v.items[i]) else None
    case Inside => if v.Str? then Inner(codec, v.s) else None
  }

  function Reached(codec: Codec, v: Json, path: seq<Hop>): Option<Json>
    decreases path
  {
    if path == [] then Some(v)
    else
      var next := HopTo(codec, v, path[0]);
      if next.None? then None else Reached(codec, next.value, path[1..])
  }

  predicate IsListed(listed: set<string>, hop: Hop) {
    hop.Key? && Lower(hop.key) in listed
  }

  /** What stands at a path after redaction: nothing below a listed key, "[REDACTED]" at it,
      and elsewhere what stood there before, redacted. */
  ghost function Expected(codec: Codec, listed: set<string>, v: Json, path: seq<Hop>): Option<Json>
    requires Lawful(codec)
    decreases path
  {
    if path == [] then Some(Redact(codec, listed, v))
    else
      var next := HopTo(codec, v, path[0]);
      if next.None? then None
      else if IsListed(listed, path[0]) then (if |path| == 1 then Some(Str(REDACTED)) else None)
      else Expected(codec, listed, next.value, path[1..])
  }

  lemma HopAfterRedaction(codec: Codec, listed: set<string>, v: Json, hop: Hop)
    requires Lawful(codec)
    ensures HopTo(codec, Redact(codec, listed, v), hop) ==
            match HopTo(codec, v, hop)
            case None => None
            case Some(x) => Some(if IsListed(listed, hop) then Str(REDACTED) else Redact(codec, listed, x))
  {
    hide TextLen, LooksLikeJson, Lower, Lawful, Inner;
    if v.Str? {
      InnerOfRedacted(codec, listed, v.s);
    }
  }

  /** Complete and minimal: for every path, through JSON inside strings as well. */
  lemma {:induction false} RedactedPath(codec: Codec, listed: set<string>, v: Json, path: seq<Hop>)
    requires Lawful(codec)
    ensures Reached(codec, Redact(codec, listed, v), path) == Expected(codec, listed, v, path)
    decreases path
  {
    hide TextLen, LooksLikeJson, Lower, Lawful, Redact, Inner;
    if path != [] {
      HopAfterRedaction(codec, listed, v, path[0]);
      var next := HopTo(codec, v, path[0]);
      if next.Some? {
        if IsListed(listed, path[0]) {
          NothingInRedacted(codec, path[1..]);
        } else {
          RedactedPath(codec, listed, next.value, path[1..]);
        }
      }
    }
  }

  lemma NothingInRedacted(codec: Codec, path: seq<Hop>)
    requires Lawful(codec)
    ensures Reached(codec, Str(REDACTED), path) == if path == [] then Some(Str(REDACTED)) else None
  {
    hide TextLen, LooksLikeJson;
  }

  /** No listed entry survives, at any depth of nesting. */
  lemma NoListedEntrySurvives(codec: Codec, listed: set<string>, v: Json, path: seq<Hop>)
    requires Lawful(codec) && path != []
    requires path[|path| - 1].Key? && ToLower(TrimSpace(path[|path| - 1].key)) in listed
    requires Reached(codec, Redact(codec, listed, v), path).Some?
    ensures Reached(codec, Redact(codec, listed, v), path) == Some(Str("[REDACTED]"))
  {
    hide Lawful, Redact, TrimSpace, ToLower, Reached;
    RedactedPath(codec, listed, v, path);
    ListedEnd(codec, listed, v, path);
  }

  lemma {:induction false} ListedEnd(codec: Codec, listed: set<string>, v: Json, path: seq<Hop>)
    requires Lawful(codec) && path != [] && IsListed(listed, path[|path| - 1])
    ensures Expected(codec, listed, v, path).Some? ==> Expected(codec, listed, v, path) == Some(Str(REDACTED))
    decreases path
  {
    hide Lawful, Redact, Lower, HopTo;
    var next := HopTo(codec, v, path[0]);
    if next.Some? && |path| > 1 && !IsListed(listed, path[0]) {
      ListedEnd(codec, listed, next.value, path[1..]);
    }
  }

  /** A plain value on a path without listed keys is left exactly as it was. */
  lemma {:induction false} OthersUntouched(codec: Codec, listed: set<string>, v: Json, path: seq<Hop>, x: Json)
    requires Lawful(codec) && (forall i :: 0 <= i < |path| ==> !IsListed(listed, path[i]))
    requires !IsContainer(x) && (x.Str? ==> Inner(codec, x.s).None?)
    ensures Reached(codec, v, path) == Some(x) ==> Reached(codec, Redact(codec, listed, v), path) == Some(x)
    decreases path
  {
    hide Lawful, Lower, HopTo, Inner, TextLen;
    if path != [] {
      HopAfterRedaction(codec, listed, v, path[0]);
      var next := HopTo(codec, v, path[0]);
      if next.Some? {
        OthersUntouched(codec, listed, next.value, path[1..], x);
      }
    }
  }

  // ------------------------------------------------------------------ headers

  /** `toLowerSet`. */
  method LowerSet(items: seq<string>) returns (out: set<string>)
    ensures forall x :: x in out <==> Lists(items, Lower, x)
  {
    out := CollectSet(items, Lower);
  }

  function RedactedHeaders(headers: map<string, string>, listed: set<string>): map<string, string> {
    map k | k in headers :: if Lower(k) in listed then REDACTED else headers[k]
  }

  /** `redactHeaders`. */
  method RedactHeaders(headers: map<string, string>, listed: set<string>) returns (out: map<string, string>)
    ensures out == RedactedHeaders(headers, listed)
    ensures out.Keys == headers.Keys
    ensures forall k :: k in headers ==> out[k] == if ToLower(TrimSpace(k)) in listed then "[REDACTED]" else headers[k]
  {
    hide TrimSpace, ToLower;
    out := map[];
    var todo := headers.Keys;
    while todo != {}
      invariant todo <= headers.Keys && out.Keys == headers.Keys - todo
      invariant forall k :: k in out ==> out[k] == if Lower(k) in listed then REDACTED else headers[k]
    {
      var k :| k in todo;
      out := out[k := if Lower(k) in listed then REDACTED else headers[k]];
      todo := todo - {k};
    }
  }
}
