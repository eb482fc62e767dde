/** Resolution of a schema graph whose nodes may refer to each other in cycles: the
    recursive procedure over a shared set of open nodes, and what it computes. */
module SchemaGraph {
  import opened Text
  import opened Json
  import opened Sets

  const CIRCULAR := "x-circularRef"
  const ORIGIN := "x-originRef"
  const UNRESOLVED := "x-unresolvedRef"

  /** Where a schema lives: pointers are compared, never schemas. */
  type Address = nat

  /** `*openapi3.SchemaRef` that is not nil: the text of the reference and the node, if any. */
  datatype Ref = Ref(source: string, target: Option<Address>)

  type MaybeRef = Option<Ref>

  /** `openapi3.Schema`. `literals` holds the keywords that are copied as they stand
      (type, title, format, enum, limits and so on). */
  datatype Schema = Schema(
    literals: Fields,
    items: MaybeRef,
    negated: MaybeRef,
    allOf: seq<MaybeRef>,
    anyOf: seq<MaybeRef>,
    oneOf: seq<MaybeRef>,
    properties: map<string, MaybeRef>,
    additionalHas: Option<bool>,
    additional: MaybeRef,
    extensions: Fields)

  type Graph = map<Address, Schema>

  /** The keys that hold schemas, and the markers. */
  const Reserved: set<string> := {
    "items", "not", "allOf", "anyOf", "oneOf", "properties", "additionalProperties", CIRCULAR, ORIGIN, UNRESOLVED
  }

  predicate RefIn(graph: Graph, ref: MaybeRef) {
    ref.Some? && ref.value.target.Some? ==> ref.value.target.value in graph
  }

  predicate RefsIn(graph: Graph, refs: seq<MaybeRef>) {
    forall i :: 0 <= i < |refs| ==> RefIn(graph, refs[i])
  }

  /** Every pointer of the schema leads into the graph. */
  predicate SchemaIn(graph: Graph, s: Schema) {
    && RefIn(graph, s.items) && RefIn(graph, s.negated) && RefIn(graph, s.additional)
    && RefsIn(graph, s.allOf) && RefsIn(graph, s.anyOf) && RefsIn(graph, s.oneOf)
    && (forall k :: k in s.properties ==> RefIn(graph, s.properties[k]))
  }

  predicate Closed(graph: Graph) {
    forall a :: a in graph ==> SchemaIn(graph, graph[a])
  }

  lemma InGraph(graph: Graph, a: Address)
    requires Closed(graph) && a in graph
    ensures SchemaIn(graph, graph[a])
  {
  }

  // ------------------------------------------------------------------ resolution

  function CircularMark(source: string): Json {
    Json.Obj(map[CIRCULAR := if source != "" then Str(source) else Bool(true)])
  }

  /** How many schemas are not open yet. */
  function Unopened(graph: Graph, open: set<Address>): nat {
    |graph.Keys - open|
  }

  lemma OpenOne(graph: Graph, open: set<Address>, a: Address)
    requires a in graph && a !in open
    ensures Unopened(graph, open + {a}) < Unopened(graph, open)
  {
    assert a in graph.Keys - open && a !in graph.Keys - (open + {a});
    SubsetSize(graph.Keys - (open + {a}), graph.Keys - open);
  }

  /** `resolveSchemaRef`. */
  function ResolveRef(graph: Graph, open: set<Address>, ref: MaybeRef): Json
    requires Closed(graph) && RefIn(graph, ref)
    decreases Unopened(graph, open), 1
  {
    if ref.None? then Null
    else if ref.value.target.None? then
      if ref.value.source == "" then Null else Json.Obj(map[UNRESOLVED := Str(ref.value.source)])
    else ResolveSchema(graph, open, ref.value.target.value, ref.value.source)
  }

  /** `resolveSchema`: a node already open on the way here becomes a marker. */
  function ResolveSchema(graph: Graph, open: set<Address>, a: Address, source: string): Json
    requires Closed(graph) && a in graph
    decreases Unopened(graph, open), 0
  {
    if a in open then CircularMark(source)
    else
      OpenOne(graph, open, a);
      Output(source, graph[a], KidsOf(graph, open + {a}, graph[a]))
  }

  /** What the references of a schema resolve to. */
  datatype Kids = Kids(
    items: Json, negated: Json, allOf: seq<Json>, anyOf: seq<Json>, oneOf: seq<Json>,
    properties: Fields, additional: Json)

  function KidsOf(graph: Graph, open: set<Address>, s: Schema): Kids
    requires Closed(graph) && SchemaIn(graph, s)
    decreases Unopened(graph, open), 3
  {
    Kids(ResolveRef(graph, open, s.items), ResolveRef(graph, open, s.negated),
         ResolveRefs(graph, open, s.allOf), ResolveRefs(graph, open, s.anyOf), ResolveRefs(graph, open, s.oneOf),
         ResolveProperties(graph, open, s), ResolveRef(graph, open, s.additional))
  }

  function ResolveProperties(graph: Graph, open: set<Address>, s: Schema): Fields
    requires Closed(graph) && SchemaIn(graph, s)
    decreases Unopened(graph, open), 2
  {
    map k | k in s.properties :: ResolveRef(graph, open, s.properties[k])
  }

  // ----------------------------------------------------------------- the output

  /** The object a schema becomes, extensions last. */
  function Output(source: string, s: Schema, kids: Kids): Json {
    Json.Obj(Origin(source) + s.literals + Keywords(s, kids) + s.extensions)
  }

  function Origin(source: string): Fields {
    if source != "" then map[ORIGIN := Str(source)] else map[]
  }

  /** The keywords that hold schemas. */
  function Keywords(s: Schema, kids: Kids): Fields {
    Single("items", s.items, kids.items) +
    Single("not", s.negated, kids.negated) +
    Several("allOf", kids.allOf) +
    Several("anyOf", kids.anyOf) +
    Several("oneOf", kids.oneOf) +
    Named(kids.properties) +
    Extra(s, kids.additional)
  }

  function Single(key: string, ref: MaybeRef, value: Json): (out: Fields)
    ensures out.Keys <= {key}
  {
    if ref.Some? then map[key := value] else map[]
  }

  function Several(key: string, values: seq<Json>): (out: Fields)
    ensures out.Keys <= {key}
  {
    if values != [] then map[key := Arr(values)] else map[]
  }

  function Named(values: Fields): (out: Fields)
    ensures out.Keys <= {"properties"}
  {
    if values != map[] then map["properties" := Json.Obj(values)] else map[]
  }

  function Extra(s: Schema, value: Json): (out: Fields)
    ensures out.Keys <= {"additionalProperties"}
  {
    if s.additionalHas.Some? then map["additionalProperties" := Bool(s.additionalHas.value)]
    else Single("additionalProperties", s.additional, value)
  }

  /** `resolveSchemaRefs`. */
  function ResolveRefs(graph: Graph, open: set<Address>, refs: seq<MaybeRef>): (out: seq<Json>)
    requires Closed(graph) && RefsIn(graph, refs)
    ensures |out| == |refs|
    decreases Unopened(graph, open), 2
  {
    seq(|refs|, i requires 0 <= i < |refs| => ResolveRef(graph, open, refs[i]))
  }

  // ------------------------------------------------------------- the procedure

  /** The shared set of schemas that are being resolved. */
  class OpenNodes {
    var items: set<Address>

    constructor ()
      ensures items == {}
    {
      items := {};
    }
  }

  method FollowRef(graph: Graph, ref: MaybeRef, open: OpenNodes) returns (out: Json)
    requires Closed(graph) && RefIn(graph, ref)
    modifies open
    ensures open.items == old(open.items)
    ensures out == ResolveRef(graph, old(open.items), ref)
    decreases Unopened(graph, open.items), 1
  {
    if ref.None? {
      return Null;
    }
    if ref.value.target.None? {
      if ref.value.source == "" {
        return Null;
      }
      return Json.Obj(map[UNRESOLVED := Str(ref.value.source)]);
    }
    out := ExpandSchema(graph, ref.value.target.value, ref.value.source, open);
  }

  /** Opens the schema, resolves what it holds and closes it again, on every path. */
  method ExpandSchema(graph: Graph, a: Address, source: string, open: OpenNodes) returns (out: Json)
    requires Closed(graph) && a in graph
    modifies open
    ensures open.items == old(open.items)
    ensures out == ResolveSchema(graph, old(open.items), a, source)
    decreases Unopened(graph, open.items), 0
  {
    hide Unopened, Keywords, Closed;
    assert SchemaIn(graph, graph[a]) by {
      InGraph(graph, a);
    }
    if a in open.items {
      return CircularMark(source);
    }
    ghost var before := open.items;
    OpenOne(graph, before, a);
    open.items := open.items + {a};
    var s := graph[a];
    var fields := if source != "" then map[ORIGIN := Str(source)] else map[];
    fields := fields + s.literals;
    var keywords := FollowKeywords(graph, s, open);
    fields := fields + keywords + s.extensions;
    open.items := open.items - {a};
    assert open.items == before;
    out := Json.Obj(fields);
  }

  method FollowKeywords(graph: Graph, s: Schema, open: OpenNodes) returns (out: Fields)
    requires Closed(graph) && SchemaIn(graph, s)
    modifies open
    ensures open.items == old(open.items)
    ensures out == Keywords(s, KidsOf(graph, old(open.items), s))
    decreases Unopened(graph, open.items), 4
  {
    hide ResolveRef, ResolveRefs, ResolveProperties, RefIn, RefsIn, Closed, Unopened;
    out := FollowSingle(graph, "items", s.items, open);
    var more := FollowSingle(graph, "not", s.negated, open);
    out := out + more;
    more := FollowSeveral(graph, "allOf", s.allOf, open);
    out := out + more;
    more := FollowSeveral(graph, "anyOf", s.anyOf, open);
    out := out + more;
    more := FollowSeveral(graph, "oneOf", s.oneOf, open);
    out := out + more;
    more := FollowNamed(graph, s, open);
    out := out + more;
    if s.additionalHas.Some? {
      out := out + map["additionalProperties" := Bool(s.additionalHas.value)];
    } else {
      more := FollowSingle(graph, "additionalProperties", s.additional, open);
      out := out + more;
    }
  }

  method FollowSingle(graph: Graph, key: string, ref: MaybeRef, open: OpenNodes) returns (out: Fields)
    requires Closed(graph) && RefIn(graph, ref)
    modifies open
    ensures open.items == old(open.items)
    ensures out == Single(key, ref, ResolveRef(graph, old(open.items), ref))
    decreases Unopened(graph, open.items), 3
  {
    out := map[];
    if ref.Some? {
      var json := FollowRef(graph, ref, open);
      out := map[key := json];
    }
  }

  method FollowSeveral(graph: Graph, key: string, refs: seq<MaybeRef>, open: OpenNodes) returns (out: Fields)
    requires Closed(graph) && RefsIn(graph, refs)
    modifies open
    ensures open.items == old(open.items)
    ensures out == Several(key, ResolveRefs(graph, old(open.items), refs))
    decreases Unopened(graph, open.items), 3
  {
    out := map[];
    if refs != [] {
      var list := FollowRefs(graph, refs, open);
      out := map[key := Arr(list)];
    }
  }

  method FollowNamed(graph: Graph, s: Schema, open: OpenNodes) returns (out: Fields)
    requires Closed(graph) && SchemaIn(graph, s)
    modifies open
    ensures open.items == old(open.items)
    ensures out == Named(ResolveProperties(graph, old(open.items), s))
    decreases Unopened(graph, open.items), 3
  {
    hide ResolveRef, Closed, Unopened, RefIn, RefsIn;
    out := map[];
    if s.properties != map[] {
      var props := FollowProperties(graph, s, open);
      assert props.Keys == s.properties.Keys;
      out := map["properties" := Json.Obj(props)];
    } else {
      assert ResolveProperties(graph, open.items, s) == map[];
    }
  }

  /** Properties are resolved in the order of their names. */
  method FollowProperties(graph: Graph, s: Schema, open: OpenNodes) returns (out: Fields)
    requires Closed(graph) && SchemaIn(graph, s)
    modifies open
    ensures open.items == old(open.items)
    ensures out == ResolveProperties(graph, old(open.items), s)
    decreases Unopened(graph, open.items), 2
  {
    hide ResolveRef, SortedKeys, Closed, Unopened;
    var keys := SortedKeys(s.properties.Keys);
    out := map[];
    for i := 0 to |keys|
      invariant open.items == old(open.items)
      invariant forall j :: 0 <= j < i ==> keys[j] in out
      invariant forall k :: k in out ==> k in s.properties && out[k] == ResolveRef(graph, open.items, s.properties[k])
    {
      assert keys[i] in keys;
      var json := FollowRef(graph, s.properties[keys[i]], open);
      out := out[keys[i] := json];
    }
    assert out.Keys == s.properties.Keys;
  }

  method FollowRefs(graph: Graph, refs: seq<MaybeRef>, open: OpenNodes) returns (out: seq<Json>)
    requires Closed(graph) && RefsIn(graph, refs)
    modifies open
    ensures open.items == old(open.items)
    ensures out == ResolveRefs(graph, old(open.items), refs)
    decreases Unopened(graph, open.items), 2
  {
    hide ResolveRef, Closed, Unopened;
    out := [];
    for i := 0 to |refs|
      invariant open.items == old(open.items)
      invariant |out| == i && forall j :: 0 <= j < i ==> out[j] == ResolveRef(graph, open.items, refs[j])
    {
      var json := FollowRef(graph, refs[i], open);
      out := out + [json];
    }
  }
}
