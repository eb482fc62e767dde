/** The search index: which operations use which schema or status, filled by nested loops, and
    what an entry of it means as a scan over the endpoints. */
module SearchIndex {
  import opened Text
  import opened Json
  import opened Pointer

  datatype Response = Response(status: int, schema: Json)

  /** What the search looks at. */
  datatype Endpoint = Endpoint(
    id: string, verb: string, path: string, summary: string, description: string, tags: seq<string>,
    body: Json, success: seq<Response>, errors: seq<Response>)

  // ---------------------------------------------------------- schema names in a value

  const MARKERS: seq<string> := ["x-originRef", "x-circularRef", "x-unresolvedRef"]
  const COMPONENTS := "/components/schemas/"

  function BeforeSlash(s: string): string {
    if s == "" || s[0] == '/' then "" else [s[0]] + BeforeSlash(s[1..])
  }

  /** The rest of the text after the first occurrence of a part. */
  function RestAfter(s: string, part: string): Option<string> {
    var i := IndexOf(s, part);
    if i.Some? then Some(s[i.value + |part|..]) else None
  }

  /** `schemaNameFromRef`. */
  function NameFromRef(ref: string): Option<string> {
    var rest := RestAfter(TrimSpace(ref), COMPONENTS);
    if rest.None? || TrimSpace(rest.value) == "" then None
    else
      var raw := BeforeSlash(TrimSpace(rest.value));
      var name := TrimSpace(ReplaceAll(ReplaceAll(raw, "~1", "/"), "~0", "~"));
      if name == "" then None else Some(name)
  }

  /** The names an object's own markers give. */
  function MarkerNames(m: Fields): set<string> {
    set i | 0 <= i < |MARKERS| && Field(m, MARKERS[i]).Str? && NameFromRef(Field(m, MARKERS[i]).s).Some? ::
      NameFromRef(Field(m, MARKERS[i]).s).value
  }

  /** `collectSchemaNamesNode`. */
  function NamesIn(v: Json): set<string> {
    match v
    case Obj(m) => MarkerNames(m) + set k, name | k in m && name in NamesIn(m[k]) :: name
    case Arr(items) => set i, name | 0 <= i < |items| && name in NamesIn(items[i]) :: name
    case _ => {}
  }

  lemma NamesInObject(m: Fields)
    ensures forall x :: x in NamesIn(Json.Obj(m)) <==> x in MarkerNames(m) || exists k :: k in m && x in NamesIn(m[k])
  {
    hide NameFromRef, MarkerNames;
  }

  lemma NamesInArray(items: seq<Json>)
    ensures forall x :: x in NamesIn(Arr(items)) <==> exists i :: 0 <= i < |items| && x in NamesIn(items[i])
  {
  }

  /** The recursion with its shared set of names; map keys in any order. */
  method CollectNames(v: Json, names: set<string>) returns (all: set<string>)
    ensures all == names + NamesIn(v)
    decreases v, 1
  {
    match v {
      case Obj(_) => all := CollectFields(v, names);
      case Arr(_) => all := CollectItems(v, names);
      case _ => all := names;
    }
  }

  method CollectFields(v: Json, names: set<string>) returns (all: set<string>)
    requires v.Obj?
    ensures all == names + NamesIn(v)
    decreases v, 0
  {
    hide MarkerNames;
    var m := v.fields;
    all := CollectMarkers(m, names);
    NamesInObject(m);
    hide NamesIn;
    var todo := m.Keys;
    while todo != {}
      invariant todo <= m.Keys
      invariant forall x :: x in all <==>
                  x in names || x in MarkerNames(m) || exists k :: k in m && k !in todo && x in NamesIn(m[k])
    {
      var key :| key in todo;
      all := CollectNames(m[key], all);
      todo := todo - {key};
    }
  }

  ghost predicate FromFirst(items: seq<Json>, n: int, x: string) {
    exists j :: 0 <= j < n <= |items| && x in NamesIn(items[j])
  }

  lemma OneMoreItem(items: seq<Json>, n: int)
    requires 0 <= n < |items|
    ensures forall x :: FromFirst(items, n + 1, x) <==> FromFirst(items, n, x) || x in NamesIn(items[n])
  {
    hide NamesIn;
  }

  lemma AllItems(items: seq<Json>)
    ensures forall x :: x in NamesIn(Arr(items)) <==> FromFirst(items, |items|, x)
  {
    NamesInArray(items);
  }

  method CollectItems(v: Json, names: set<string>) returns (all: set<string>)
    requires v.Arr?
    ensures all == names + NamesIn(v)
    decreases v, 0
  {
    AllItems(v.items);
    assert forall x :: !FromFirst(v.items, 0, x);
    hide NamesIn, FromFirst;
    all := names;
    for i := 0 to |v.items|
      invariant forall x :: x in all <==> x in names || FromFirst(v.items, i, x)
    {
      OneMoreItem(v.items, i);
      all := CollectNames(v.items[i], all);
    }
  }

  method CollectMarkers(m: Fields, names: set<string>) returns (all: set<string>)
    ensures all == names + MarkerNames(m)
  {
    hide NameFromRef;
    all := names;
    for i := 0 to |MARKERS|
      invariant forall x :: x in all <==> x in names || exists j :: 0 <= j < i && GivesName(m, MARKERS[j], x)
    {
      var raw := Field(m, MARKERS[i]);
      if raw.Str? {
        var name := NameFromRef(raw.s);
        if name.Some? {
          all := all + {name.value};
        }
      }
    }
  }

  predicate GivesName(m: Fields, marker: string, name: string) {
    Field(m, marker).Str? && NameFromRef(Field(m, marker).s) == Some(name)
  }

  /** Somewhere inside the value stands an object with a marker that gives this name. */
  ghost predicate Mentions(v: Json, name: string) {
    exists path, key :: MentionsAt(v, path, key, name)
  }

  ghost predicate MentionsAt(v: Json, path: seq<Step>, key: string, name: string) {
    var node := NodeAt(v, path);
    && (key == "x-originRef" || key == "x-circularRef" || key == "x-unresolvedRef")
    && node.Some? && node.value.Obj? && GivesName(node.value.fields, key, name)
  }

  /** The collected names are those mentioned at any depth. */
  lemma {:induction false} NamesAreMentioned(v: Json, name: string)
    ensures name in NamesIn(v) <==> Mentions(v, name)
  {
    hide NameFromRef;
    if name in NamesIn(v) {
      NameIsMentioned(v, name);
    }
    if Mentions(v, name) {
      var path, key :| MentionsAt(v, path, key, name);
      MentionIsName(v, path, key, name);
    }
  }

  lemma {:induction false} NameIsMentioned(v: Json, name: string)
    requires name in NamesIn(v)
    ensures Mentions(v, name)
  {
    hide NameFromRef;
    match v
    case Obj(m) =>
      if name in MarkerNames(m) {
        var i :| 0 <= i < |MARKERS| && GivesName(m, MARKERS[i], name);
        assert MentionsAt(v, [], MARKERS[i], name);
      } else {
        var k :| k in m && name in NamesIn(m[k]);
        NameIsMentioned(m[k], name);
        var path, key :| MentionsAt(m[k], path, key, name);
        assert ([Key(k)] + path)[1..] == path;
        assert MentionsAt(v, [Key(k)] + path, key, name);
      }
    case Arr(items) =>
      var j :| 0 <= j < |items| && name in NamesIn(items[j]);
      NameIsMentioned(items[j], name);
      var path, key :| MentionsAt(items[j], path, key, name);
      assert ([Index(j)] + path)[1..] == path;
      assert MentionsAt(v, [Index(j)] + path, key, name);
  }

  lemma {:induction false} MentionIsName(v: Json, path: seq<Step>, key: string, name: string)
    requires MentionsAt(v, path, key, name)
    ensures name in NamesIn(v)
    decreases path
  {
    hide NameFromRef;
    if path == [] {
      var i := if key == "x-originRef" then 0 else if key == "x-circularRef" then 1 else 2;
      assert MARKERS[i] == key;
      assert name in MarkerNames(v.fields);
    } else {
      match path[0]
      case Key(k) => MentionIsName(v.fields[k], path[1..], key, name);
      case Index(j) => MentionIsName(v.items[j], path[1..], key, name);
    }
  }

  // ------------------------------------------------------------------- the index

  /** Two flags: request and response use of a schema, success and error use of a status. */
  datatype Flags = Flags(first: bool, second: bool)

  type Usage<K> = map<K, map<string, Flags>>

  function FlagsOf<K>(usage: Usage<K>, key: K, id: string): Flags {
    if key in usage && id in usage[key] then usage[key][id] else Flags(false, false)
  }

  /** There is an entry exactly where a flag is set. */
  ghost predicate Tidy<K(!new)>(usage: Usage<K>) {
    forall key, id :: key in usage && id in usage[key] ==> FlagsOf(usage, key, id) != Flags(false, false)
  }

  function Either(a: Flags, b: Flags): Flags {
    Flags(a.first || b.first, a.second || b.second)
  }

  /** The part `addSchemaUsage` and `addStatusUsage` share. */
  function Marked<K>(usage: Usage<K>, key: K, id: string, mark: Flags): (out: Usage<K>)
    ensures FlagsOf(out, key, id) == Either(FlagsOf(usage, key, id), mark)
  {
    var operations := if key in usage then usage[key] else map[];
    usage[key := operations[id := Either(FlagsOf(usage, key, id), mark)]]
  }

  function AddSchema(usage: Usage<string>, name: string, id: string, mark: Flags): Usage<string> {
    if Lower(name) == "" then usage else Marked(usage, Lower(name), id, mark)
  }

  function AddStatus(usage: Usage<int>, status: int, id: string, mark: Flags): Usage<int> {
    if status <= 0 then usage else Marked(usage, status, id, mark)
  }

  lemma MarkedElsewhere<K(!new)>(usage: Usage<K>, key: K, id: string, mark: Flags)
    ensures forall k, i :: k != key || i != id ==> FlagsOf(Marked(usage, key, id, mark), k, i) == FlagsOf(usage, k, i)
    ensures Tidy(usage) && mark != Flags(false, false) ==> Tidy(Marked(usage, key, id, mark))
  {
    var out := Marked(usage, key, id, mark);
    forall k, i | k in out && i in out[k] && (k != key || i != id) ensures k in usage && i in usage[k] {
    }
  }

  predicate NamesKey(names: set<string>, key: string) {
    key != "" && exists name :: name in names && Lower(name) == key
  }

  const REQUEST := Flags(true, false)
  const RESPONSE := Flags(false, true)
  const SUCCESS := Flags(true, false)
  const ERROR := Flags(false, true)

  function Only(mark: Flags, when: bool): Flags {
    if when then mark else Flags(false, false)
  }

  /** All names of a value, in sorted order, for one operation. */
  method AddNames(usage: Usage<string>, v: Json, id: string, mark: Flags) returns (out: Usage<string>)
    requires Tidy(usage) && mark != Flags(false, false)
    ensures Tidy(out)
    ensures forall key, i :: FlagsOf(out, key, i) ==
              Either(FlagsOf(usage, key, i), Only(mark, i == id && NamesKey(NamesIn(v), key)))
  {
    hide NamesIn, SortedKeys, Lower, Marked;
    var names := CollectNames(v, {});
    var list := SortedKeys(names);
    out := usage;
    ghost var seen := {};
    for n := 0 to |list|
      invariant Tidy(out)
      invariant forall x :: x in seen <==> exists j :: 0 <= j < n && list[j] == x
      invariant forall key, i :: FlagsOf(out, key, i) ==
                  Either(FlagsOf(usage, key, i), Only(mark, i == id && NamesKey(seen, key)))
    {
      if Lower(list[n]) != "" {
        MarkedElsewhere(out, Lower(list[n]), id, mark);
      }
      out := AddSchema(out, list[n], id, mark);
      OneMoreName(seen, list[n]);
      seen := seen + {list[n]};
    }
    assert seen == NamesIn(v);
  }

  lemma OneMoreName(names: set<string>, name: string)
    ensures forall key :: NamesKey(names + {name}, key) <==> NamesKey(names, key) || (key != "" && Lower(name) == key)
  {
    hide Lower;
    assert name in names + {name};
    forall key | NamesKey(names, key) ensures NamesKey(names + {name}, key) {
      var x :| x in names && Lower(x) == key;
      assert x in names + {name};
    }
  }

  datatype Indexes = Indexes(schemas: Usage<string>, statuses: Usage<int>)

  ghost predicate TidyIndexes(ix: Indexes) {
    Tidy(ix.schemas) && Tidy(ix.statuses)
  }

  /** One of the first `n` responses names the schema. */
  ghost predicate SchemaAmong(responses: seq<Response>, n: nat, key: string)
    requires n <= |responses|
  {
    n > 0 && (SchemaAmong(responses, n - 1, key) || NamesKey(NamesIn(responses[n - 1].schema), key))
  }

  ghost predicate StatusAmong(responses: seq<Response>, n: nat, status: int)
    requires n <= |responses|
  {
    n > 0 && (StatusAmong(responses, n - 1, status) || responses[n - 1].status == status)
  }

  /** How an endpoint uses a schema or a positive status. */
  ghost function SchemaFlags(e: Endpoint, key: string): Flags {
    Flags(NamesKey(NamesIn(e.body), key),
          SchemaAmong(e.success, |e.success|, key) || SchemaAmong(e.errors, |e.errors|, key))
  }

  ghost function StatusFlags(e: Endpoint, status: int): Flags {
    Flags(status > 0 && StatusAmong(e.success, |e.success|, status),
          status > 0 && StatusAmong(e.errors, |e.errors|, status))
  }

  method AddResponses(ix: Indexes, responses: seq<Response>, id: string, mark: Flags) returns (out: Indexes)
    requires TidyIndexes(ix) && mark != Flags(false, false)
    ensures TidyIndexes(out)
    ensures forall key, i :: FlagsOf(out.schemas, key, i) ==
              Either(FlagsOf(ix.schemas, key, i), Only(RESPONSE, i == id && SchemaAmong(responses, |responses|, key)))
    ensures forall status, i :: FlagsOf(out.statuses, status, i) ==
              Either(FlagsOf(ix.statuses, status, i),
                     Only(mark, i == id && status > 0 && StatusAmong(responses, |responses|, status)))
  {
    hide NamesIn, NamesKey, Marked, FlagsOf, Tidy;
    out := ix;
    for n := 0 to |responses|
      invariant TidyIndexes(out)
      invariant forall key, i :: FlagsOf(out.schemas, key, i) ==
                  Either(FlagsOf(ix.schemas, key, i), Only(RESPONSE, i == id && SchemaAmong(responses, n, key)))
      invariant forall status, i :: FlagsOf(out.statuses, status, i) ==
                  Either(FlagsOf(ix.statuses, status, i),
                         Only(mark, i == id && status > 0 && StatusAmong(responses, n, status)))
    {
      var r := responses[n];
      MarkedElsewhere(out.statuses, r.status, id, mark);
      var statuses := AddStatus(out.statuses, r.status, id, mark);
      var schemas := AddNames(out.schemas, r.schema, id, RESPONSE);
      out := Indexes(schemas, statuses);
    }
  }

  method AddEndpoint(ix: Indexes, e: Endpoint, id: string) returns (out: Indexes)
    requires TidyIndexes(ix)
    ensures TidyIndexes(out)
    ensures forall key, i :: FlagsOf(out.schemas, key, i) ==
              Either(FlagsOf(ix.schemas, key, i), if i == id then SchemaFlags(e, key) else Flags(false, false))
    ensures forall status, i :: FlagsOf(out.statuses, status, i) ==
              Either(FlagsOf(ix.statuses, status, i), if i == id then StatusFlags(e, status) else Flags(false, false))
  {
    hide NamesIn, NamesKey, FlagsOf, SchemaAmong, StatusAmong, Tidy;
    var schemas := AddNames(ix.schemas, e.body, id, REQUEST);
    out := Indexes(schemas, ix.statuses);
    out := AddResponses(out, e.success, id, SUCCESS);
    out := AddResponses(out, e.errors, id, ERROR);
  }

  /** What the first `n` endpoints with this trimmed id use. */
  ghost function SchemaUse(endpoints: seq<Endpoint>, n: nat, key: string, id: string): Flags
    requires n <= |endpoints|
  {
    if n == 0 || id == "" then Flags(false, false)
    else
      var e := endpoints[n - 1];
      Either(SchemaUse(endpoints, n - 1, key, id), if TrimSpace(e.id) == id then SchemaFlags(e, key) else Flags(false, false))
  }

  ghost function StatusUse(endpoints: seq<Endpoint>, n: nat, status: int, id: string): Flags
    requires n <= |endpoints|
  {
    if n == 0 || id == "" then Flags(false, false)
    else
      var e := endpoints[n - 1];
      Either(StatusUse(endpoints, n - 1, status, id), if TrimSpace(e.id) == id then StatusFlags(e, status) else Flags(false, false))
  }

  /** The indexes say what the endpoints use, and have no empty entries. */
  ghost predicate IndexOfAll(ix: Indexes, endpoints: seq<Endpoint>) {
    && TidyIndexes(ix)
    && (forall key, id :: FlagsOf(ix.schemas, key, id) == SchemaUse(endpoints, |endpoints|, key, id))
    && (forall status, id :: FlagsOf(ix.statuses, status, id) == StatusUse(endpoints, |endpoints|, status, id))
  }

  /** `buildSearchIndexes`. */
  method BuildIndexes(endpoints: seq<Endpoint>) returns (ix: Indexes)
    ensures IndexOfAll(ix, endpoints)
  {
    hide SchemaFlags, StatusFlags, TrimSpace;
    ix := Indexes(map[], map[]);
    for n := 0 to |endpoints|
      invariant TidyIndexes(ix)
      invariant forall key, id :: FlagsOf(ix.schemas, key, id) == SchemaUse(endpoints, n, key, id)
      invariant forall status, id :: FlagsOf(ix.statuses, status, id) == StatusUse(endpoints, n, status, id)
    {
      hide FlagsOf, Tidy;
      var id := TrimSpace(endpoints[n].id);
      if id != "" {
        ix := AddEndpoint(ix, endpoints[n], id);
      }
    }
  }

  // --------------------------------------------------------------- what it means

  lemma {:induction false} SchemaUseMeans(endpoints: seq<Endpoint>, n: nat, key: string, id: string)
    requires n <= |endpoints|
    ensures SchemaUse(endpoints, n, key, id).first <==>
            id != "" && exists j :: 0 <= j < n && TrimSpace(endpoints[j].id) == id && SchemaFlags(endpoints[j], key).first
    ensures SchemaUse(endpoints, n, key, id).second <==>
            id != "" && exists j :: 0 <= j < n && TrimSpace(endpoints[j].id) == id && SchemaFlags(endpoints[j], key).second
  {
    hide SchemaFlags, TrimSpace;
    if n > 0 {
      SchemaUseMeans(endpoints, n - 1, key, id);
    }
  }

  lemma {:induction false} StatusUseMeans(endpoints: seq<Endpoint>, n: nat, status: int, id: string)
    requires n <= |endpoints|
    ensures StatusUse(endpoints, n, status, id).first <==>
            id != "" && exists j :: 0 <= j < n && TrimSpace(endpoints[j].id) == id && StatusFlags(endpoints[j], status).first
    ensures StatusUse(endpoints, n, status, id).second <==>
            id != "" && exists j :: 0 <= j < n && TrimSpace(endpoints[j].id) == id && StatusFlags(endpoints[j], status).second
  {
    hide StatusFlags, TrimSpace;
    if n > 0 {
      StatusUseMeans(endpoints, n - 1, status, id);
    }
  }

  lemma {:induction false} SchemaAmongMeans(responses: seq<Response>, n: nat, key: string)
    requires n <= |responses|
    ensures SchemaAmong(responses, n, key) <==>
            exists j :: 0 <= j < n && NamesKey(NamesIn(responses[j].schema), key)
  {
    hide NamesIn, NamesKey;
    if n > 0 {
      SchemaAmongMeans(responses, n - 1, key);
    }
  }

  lemma {:induction false} StatusAmongMeans(responses: seq<Response>, n: nat, status: int)
    requires n <= |responses|
    ensures StatusAmong(responses, n, status) <==> exists j :: 0 <= j < n && responses[j].status == status
  {
    if n > 0 {
      StatusAmongMeans(responses, n - 1, status);
    }
  }
}
