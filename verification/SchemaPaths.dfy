/** What the resolved output holds at every path of the schema graph: the schema at the end
    of the path, expanded unless the path has already been through it. */
module SchemaPaths {
  import opened Text
  import opened Json
  import opened SchemaGraph

  // -------------------------------------------------------------- paths

  /** One step down from a schema, and the place in the output it stands for. */
  datatype Edge = Items | Not | AllOf(i: nat) | AnyOf(i: nat) | OneOf(i: nat) | Property(key: string) | Additional

  function ListEntry(refs: seq<MaybeRef>, i: nat): Option<MaybeRef> {
    if i < |refs| then Some(refs[i]) else None
  }

  function Present(ref: MaybeRef): Option<MaybeRef> {
    if ref.Some? then Some(ref) else None
  }

  function Follow(s: Schema, edge: Edge): Option<MaybeRef> {
    match edge
    case Items => Present(s.items)
    case Not => Present(s.negated)
    case AllOf(i) => ListEntry(s.allOf, i)
    case AnyOf(i) => ListEntry(s.anyOf, i)
    case OneOf(i) => ListEntry(s.oneOf, i)
    case Property(key) => if key in s.properties then Some(s.properties[key]) else None
    case Additional => if s.additionalHas.None? then Present(s.additional) else None
  }

  function KeyEntry(j: Json, key: string): Option<Json> {
    if j.Obj? && key in j.fields then Some(j.fields[key]) else None
  }

  function IndexEntry(j: Option<Json>, i: nat): Option<Json> {
    if j.Some? && j.value.Arr? && i < |j.value.items| then Some(j.value.items[i]) else None
  }

  function Entry(j: Json, edge: Edge): Option<Json> {
    var under := KeyEntry(j, KeyOf(edge));
    match edge
    case AllOf(i) => IndexEntry(under, i)
    case AnyOf(i) => IndexEntry(under, i)
    case OneOf(i) => IndexEntry(under, i)
    case Property(key) => if under.Some? then KeyEntry(under.value, key) else None
    // a Boolean here is not a schema
    case Additional => if under.Some? && !under.value.Bool? then under else None
    case _ => under
  }

  // ---------------------------------------------------- one level of the output

  function KeyOf(edge: Edge): (key: string)
    ensures key in KEYWORDS
  {
    match edge
    case Items => "items"
    case Not => "not"
    case AllOf(_) => "allOf"
    case AnyOf(_) => "anyOf"
    case OneOf(_) => "oneOf"
    case Property(_) => "properties"
    case Additional => "additionalProperties"
  }

  lemma KeywordsDiffer()
    ensures "items" != "not" && "items" != "allOf" && "items" != "anyOf" && "items" != "oneOf"
    ensures "not" != "allOf" && "not" != "anyOf" && "not" != "oneOf"
    ensures "allOf" != "anyOf" && "allOf" != "oneOf" && "anyOf" != "oneOf"
    ensures "properties" !in ["items", "not", "allOf", "anyOf", "oneOf", "additionalProperties"]
    ensures "additionalProperties" !in ["items", "not", "allOf", "anyOf", "oneOf"]
    ensures CIRCULAR !in KEYWORDS && ORIGIN !in KEYWORDS && UNRESOLVED !in KEYWORDS
    ensures ORIGIN != CIRCULAR && UNRESOLVED != CIRCULAR
  {
    assert "items"[0] == 'i' && "allOf"[0] == 'a' && "anyOf"[0] == 'a' && "oneOf"[0] == 'o';
    assert "allOf"[1] == 'l' && "anyOf"[1] == 'n';
    assert |"items"| == 5 && |"not"| == 3 && |"allOf"| == 5 && |"anyOf"| == 5 && |"oneOf"| == 5;
    assert |"properties"| == 10 && |"additionalProperties"| == 20;
    assert |CIRCULAR| == 13 && |ORIGIN| == 11 && |UNRESOLVED| == 15;
  }

  const KEYWORDS: set<string> := {"items", "not", "allOf", "anyOf", "oneOf", "properties", "additionalProperties"}

  /** What the output holds for an edge, given what the references resolve to. */
  function Kid(s: Schema, kids: Kids, edge: Edge): Option<Json> {
    match edge
    case Items => if s.items.Some? then Some(kids.items) else None
    case Not => if s.negated.Some? then Some(kids.negated) else None
    case AllOf(i) => if i < |kids.allOf| then Some(kids.allOf[i]) else None
    case AnyOf(i) => if i < |kids.anyOf| then Some(kids.anyOf[i]) else None
    case OneOf(i) => if i < |kids.oneOf| then Some(kids.oneOf[i]) else None
    case Property(key) => if key in kids.properties then Some(kids.properties[key]) else None
    case Additional => if s.additionalHas.None? && s.additional.Some? then Some(kids.additional) else None
  }

  /** Adding a map with at most one key changes that key only. */
  lemma AddKey(m: Fields, p: Fields, k: string)
    requires p.Keys <= {k} && k !in m
    ensures KeyEntry(Json.Obj(m + p), k) == KeyEntry(Json.Obj(p), k)
    ensures forall x :: x != k ==> KeyEntry(Json.Obj(m + p), x) == KeyEntry(Json.Obj(m), x)
    ensures (m + p).Keys <= m.Keys + {k}
  {
  }

  /** What the keywords hold. */
  lemma KeywordEntries(s: Schema, kids: Kids)
    ensures Keywords(s, kids).Keys <= KEYWORDS
    ensures var out := Json.Obj(Keywords(s, kids));
            && KeyEntry(out, "items") == KeyEntry(Json.Obj(Single("items", s.items, kids.items)), "items")
            && KeyEntry(out, "not") == KeyEntry(Json.Obj(Single("not", s.negated, kids.negated)), "not")
            && KeyEntry(out, "allOf") == KeyEntry(Json.Obj(Several("allOf", kids.allOf)), "allOf")
            && KeyEntry(out, "anyOf") == KeyEntry(Json.Obj(Several("anyOf", kids.anyOf)), "anyOf")
            && KeyEntry(out, "oneOf") == KeyEntry(Json.Obj(Several("oneOf", kids.oneOf)), "oneOf")
            && KeyEntry(out, "properties") == KeyEntry(Json.Obj(Named(kids.properties)), "properties")
            && KeyEntry(out, "additionalProperties") == KeyEntry(Json.Obj(Extra(s, kids.additional)), "additionalProperties")
  {
    hide Single, Several, Named, Extra, KeyEntry;
    KeywordsDiffer();
    var out := Single("items", s.items, kids.items);
    AddKey(out, Single("not", s.negated, kids.negated), "not");
    out := out + Single("not", s.negated, kids.negated);
    AddKey(out, Several("allOf", kids.allOf), "allOf");
    out := out + Several("allOf", kids.allOf);
    AddKey(out, Several("anyOf", kids.anyOf), "anyOf");
    out := out + Several("anyOf", kids.anyOf);
    AddKey(out, Several("oneOf", kids.oneOf), "oneOf");
    out := out + Several("oneOf", kids.oneOf);
    AddKey(out, Named(kids.properties), "properties");
    out := out + Named(kids.properties);
    AddKey(out, Extra(s, kids.additional), "additionalProperties");
  }

  /** Literals and extensions leave the schema keywords and the markers alone. */
  predicate Unshadowed(graph: Graph) {
    forall a :: a in graph ==> graph[a].literals.Keys !! Reserved && graph[a].extensions.Keys !! Reserved
  }

  lemma OutputKeys(source: string, s: Schema, kids: Kids, key: string)
    requires s.literals.Keys !! Reserved && s.extensions.Keys !! Reserved && key in KEYWORDS
    ensures KeyEntry(Output(source, s, kids), key) == KeyEntry(Json.Obj(Keywords(s, kids)), key)
    ensures !IsMarker(Output(source, s, kids))
  {
    KeywordsDiffer();
    KeywordEntries(s, kids);
    hide Keywords;
    assert key in Reserved && CIRCULAR in Reserved;
  }

  /** What stands under the keyword of an edge. */
  lemma KeywordEntry(s: Schema, kids: Kids, edge: Edge)
    requires !kids.additional.Bool?
    ensures Entry(Json.Obj(Keywords(s, kids)), edge) == Kid(s, kids, edge)
  {
    KeywordEntries(s, kids);
    hide Keywords;
  }

  /** Below an expanded schema there is, edge by edge, what its references resolve to; nothing
      else looks like a schema, and there is no marker. */
  lemma OutputEntry(source: string, s: Schema, kids: Kids, edge: Edge)
    requires s.literals.Keys !! Reserved && s.extensions.Keys !! Reserved && !kids.additional.Bool?
    ensures Entry(Output(source, s, kids), edge) == Kid(s, kids, edge)
    ensures !IsMarker(Output(source, s, kids))
  {
    hide Keywords, Output, Kid, KeyEntry, IsMarker;
    OutputKeys(source, s, kids, KeyOf(edge));
    KeywordEntry(s, kids, edge);
  }

  /** A resolved reference is never a Boolean. */
  lemma NeverBoolean(graph: Graph, open: set<Address>, ref: MaybeRef)
    requires Closed(graph) && RefIn(graph, ref)
    ensures !ResolveRef(graph, open, ref).Bool?
  {
    hide Keywords, Unopened, KidsOf;
  }

  predicate IsMarker(j: Json) {
    j.Obj? && CIRCULAR in j.fields
  }

  /** One level of the output: below an expanded schema there is, edge by edge, what the
      schema refers to, resolved with this schema open; nothing else looks like a schema. */
  lemma EntryOfSchema(graph: Graph, open: set<Address>, a: Address, source: string, edge: Edge)
    requires Closed(graph) && Unshadowed(graph) && a in graph && a !in open
    ensures Follow(graph[a], edge).Some? ==> RefIn(graph, Follow(graph[a], edge).value)
    ensures Entry(ResolveSchema(graph, open, a, source), edge) ==
            match Follow(graph[a], edge)
            case Some(ref) => Some(ResolveRef(graph, open + {a}, ref))
            case None => None
    ensures !IsMarker(ResolveSchema(graph, open, a, source))
  {
    InGraph(graph, a);
    hide ResolveRef, Unopened, Output, Closed, Entry, IsMarker;
    var s := graph[a];
    OpenOne(graph, open, a);
    NeverBoolean(graph, open + {a}, s.additional);
    OutputEntry(source, s, KidsOf(graph, open + {a}, s), edge);
    KidOfEdge(graph, open + {a}, s, edge);
  }

  lemma KidOfEdge(graph: Graph, open: set<Address>, s: Schema, edge: Edge)
    requires Closed(graph) && SchemaIn(graph, s)
    ensures Follow(s, edge).Some? ==> RefIn(graph, Follow(s, edge).value)
    ensures Kid(s, KidsOf(graph, open, s), edge) ==
            match Follow(s, edge)
            case Some(ref) => Some(ResolveRef(graph, open, ref))
            case None => None
  {
    hide ResolveRef, Unopened, Closed, RefIn;
  }

  // ----------------------------------------------------------------- whole paths

  /** The schema a reference leads to. */
  function Node(graph: Graph, ref: MaybeRef): Option<Address> {
    if ref.Some? && ref.value.target.Some? && ref.value.target.value in graph then ref.value.target else None
  }

  function Next(graph: Graph, ref: MaybeRef, edge: Edge): Option<MaybeRef> {
    if Node(graph, ref).Some? then Follow(graph[Node(graph, ref).value], edge) else None
  }

  /** The path exists in the graph. */
  predicate Leads(graph: Graph, ref: MaybeRef, path: seq<Edge>)
    decreases path
  {
    path != [] ==> Next(graph, ref, path[0]).Some? && Leads(graph, Next(graph, ref, path[0]).value, path[1..])
  }

  /** The schemas a path goes through before its last reference. */
  function Nodes(graph: Graph, ref: MaybeRef, path: seq<Edge>): (nodes: seq<Address>)
    requires Leads(graph, ref, path)
    ensures |nodes| == |path|
    decreases path
  {
    if path == [] then []
    else [Node(graph, ref).value] + Nodes(graph, Next(graph, ref, path[0]).value, path[1..])
  }

  function End(graph: Graph, ref: MaybeRef, path: seq<Edge>): MaybeRef
    requires Leads(graph, ref, path)
    decreases path
  {
    if path == [] then ref else End(graph, Next(graph, ref, path[0]).value, path[1..])
  }

  function At(j: Json, path: seq<Edge>): Option<Json> {
    if path == [] then Some(j)
    else if Entry(j, path[0]).Some? then At(Entry(j, path[0]).value, path[1..])
    else None
  }

  predicate Distinct(nodes: seq<Address>) {
    forall i, j :: 0 <= i < j < |nodes| ==> nodes[i] != nodes[j]
  }

  function Passed(nodes: seq<Address>): (passed: set<Address>)
    ensures forall x :: x in passed <==> x in nodes
  {
    set i | 0 <= i < |nodes| :: nodes[i]
  }

  /** A marker stands exactly where a reference leads back to an open schema. */
  lemma MarkerMeansOpen(graph: Graph, open: set<Address>, ref: MaybeRef)
    requires Closed(graph) && Unshadowed(graph) && RefIn(graph, ref)
    ensures IsMarker(ResolveRef(graph, open, ref)) <==>
            Node(graph, ref).Some? && Node(graph, ref).value in open
  {
    hide Unopened, Closed, Unshadowed, Output, KidsOf;
    KeywordsDiffer();
    var a := Node(graph, ref);
    if a.Some? && a.value !in open {
      EntryOfSchema(graph, open, a.value, ref.value.source, Items);
    }
  }

  /** Below a marker, a missing schema or nothing there is no schema. */
  lemma DeadEnd(graph: Graph, open: set<Address>, ref: MaybeRef, edge: Edge)
    requires Closed(graph) && RefIn(graph, ref)
    requires Node(graph, ref).Some? ==> Node(graph, ref).value in open
    ensures Entry(ResolveRef(graph, open, ref), edge).None?
  {
    hide Unopened, Closed, SchemaIn, Output, KidsOf;
    KeywordsDiffer();
  }

  /** The output holds exactly the paths that go through no schema twice, and at the end of
      each the last reference, resolved with the schemas of the path open. */
  lemma {:induction false} PathOutput(graph: Graph, open: set<Address>, ref: MaybeRef, path: seq<Edge>)
    requires Closed(graph) && Unshadowed(graph) && RefIn(graph, ref)
    ensures var found := At(ResolveRef(graph, open, ref), path);
            if Leads(graph, ref, path) && Distinct(Nodes(graph, ref, path)) && Passed(Nodes(graph, ref, path)) !! open
            then RefIn(graph, End(graph, ref, path)) &&
                 found == Some(ResolveRef(graph, open + Passed(Nodes(graph, ref, path)), End(graph, ref, path)))
            else found == None
    decreases path
  {
    hide ResolveRef, Closed, Unshadowed, RefIn, Follow, Entry;
    if path == [] {
      assert Nodes(graph, ref, path) == [];
      assert open + Passed([]) == open;
    } else {
      var edge, rest := path[0], path[1..];
      var a := Node(graph, ref);
      if a.None? || a.value in open {
        DeadEnd(graph, open, ref, edge);
        if Leads(graph, ref, path) {
          assert Nodes(graph, ref, path)[0] in Passed(Nodes(graph, ref, path));
        }
      } else {
        ResolveNode(graph, open, ref);
        EntryOfSchema(graph, open, a.value, ref.value.source, edge);
        var next := Next(graph, ref, edge);
        if next.Some? {
          PathOutput(graph, open + {a.value}, next.value, rest);
          if Leads(graph, next.value, rest) {
            PathStep(graph, open, ref, path);
          }
        }
      }
    }
  }

  lemma ResolveNode(graph: Graph, open: set<Address>, ref: MaybeRef)
    requires Closed(graph) && RefIn(graph, ref) && Node(graph, ref).Some?
    ensures ResolveRef(graph, open, ref) == ResolveSchema(graph, open, Node(graph, ref).value, ref.value.source)
  {
  }

  /** How a path splits into its first edge and the rest. */
  lemma PathStep(graph: Graph, open: set<Address>, ref: MaybeRef, path: seq<Edge>)
    requires path != [] && Leads(graph, ref, path) && Node(graph, ref).value !in open
    ensures var a, nodes := Node(graph, ref).value, Nodes(graph, ref, path);
            var later := Nodes(graph, Next(graph, ref, path[0]).value, path[1..]);
            && (Distinct(nodes) && Passed(nodes) !! open <==> Distinct(later) && Passed(later) !! open + {a})
            && open + Passed(nodes) == open + {a} + Passed(later)
  {
    hide Follow;
    var a := Node(graph, ref).value;
    var nodes := Nodes(graph, ref, path);
    var later := Nodes(graph, Next(graph, ref, path[0]).value, path[1..]);
    assert nodes == [a] + later;
    Prepended(a, later);
  }

  lemma Prepended(a: Address, later: seq<Address>)
    ensures Distinct([a] + later) <==> Distinct(later) && a !in Passed(later)
    ensures Passed([a] + later) == {a} + Passed(later)
  {
    var nodes := [a] + later;
    assert forall i :: 0 <= i < |later| ==> later[i] == nodes[i + 1];
    if Distinct(nodes) {
      assert forall j :: 0 < j < |nodes| ==> nodes[0] != nodes[j];
    }
    if Distinct(later) && a !in Passed(later) {
      forall i, j | 0 <= i < j < |nodes| ensures nodes[i] != nodes[j] {
        assert nodes[j] == later[j - 1];
      }
    }
  }

  /** Started with nothing open: every path of the output goes through distinct schemas, and
      its end is a marker exactly if the path has been through that schema already. */
  lemma MarkedExactlyOnReturn(graph: Graph, ref: MaybeRef, path: seq<Edge>)
    requires Closed(graph) && Unshadowed(graph) && RefIn(graph, ref)
    ensures var found := At(ResolveRef(graph, {}, ref), path);
            && (found.Some? <==> Leads(graph, ref, path) && Distinct(Nodes(graph, ref, path)))
            && (found.Some? ==>
                  var end := Node(graph, End(graph, ref, path));
                  (IsMarker(found.value) <==> end.Some? && end.value in Nodes(graph, ref, path)))
  {
    hide ResolveRef, Closed, Unshadowed, RefIn, Leads, End, IsMarker, Node, At;
    PathOutput(graph, {}, ref, path);
    if Leads(graph, ref, path) && Distinct(Nodes(graph, ref, path)) {
      MarkerMeansOpen(graph, {} + Passed(Nodes(graph, ref, path)), End(graph, ref, path));
    }
  }

  // ------------------------------------------------------------- acyclic graphs

  ghost predicate Ranked(graph: Graph, rank: map<Address, nat>) {
    && graph.Keys <= rank.Keys
    && forall a, edge :: a in graph ==> EdgeRanked(graph, rank, a, edge)
  }

  /** The edge leads to a schema of lower rank, if to any. */
  ghost predicate EdgeRanked(graph: Graph, rank: map<Address, nat>, a: Address, edge: Edge)
    requires a in graph && graph.Keys <= rank.Keys
  {
    var ref := Follow(graph[a], edge);
    ref.Some? && Node(graph, ref.value).Some? ==> rank[Node(graph, ref.value).value] < rank[a]
  }

  /** How high a reference reaches. */
  ghost function Height(graph: Graph, rank: map<Address, nat>, ref: MaybeRef): nat
    requires graph.Keys <= rank.Keys
  {
    if Node(graph, ref).Some? then rank[Node(graph, ref).value] + 1 else 0
  }

  lemma EdgeFalls(graph: Graph, rank: map<Address, nat>, a: Address, edge: Edge)
    requires Closed(graph) && Ranked(graph, rank) && a in graph
    ensures Follow(graph[a], edge).Some? ==>
              && RefIn(graph, Follow(graph[a], edge).value)
              && Height(graph, rank, Follow(graph[a], edge).value) <= rank[a]
  {
    assert EdgeRanked(graph, rank, a, edge);
  }

  /** Every reference of the schema leads into the graph and stays below it. */
  ghost predicate Lower(graph: Graph, rank: map<Address, nat>, a: Address)
    requires graph.Keys <= rank.Keys && a in graph
  {
    var s := graph[a];
    && LowerRef(graph, rank, a, s.items) && LowerRef(graph, rank, a, s.negated)
    && LowerRefs(graph, rank, a, s.allOf) && LowerRefs(graph, rank, a, s.anyOf) && LowerRefs(graph, rank, a, s.oneOf)
    && (forall k :: k in s.properties ==> LowerRef(graph, rank, a, s.properties[k]))
    && (s.additionalHas.None? ==> LowerRef(graph, rank, a, s.additional))
  }

  ghost predicate LowerRef(graph: Graph, rank: map<Address, nat>, a: Address, ref: MaybeRef)
    requires graph.Keys <= rank.Keys && a in graph
  {
    RefIn(graph, ref) && Height(graph, rank, ref) <= rank[a]
  }

  ghost predicate LowerRefs(graph: Graph, rank: map<Address, nat>, a: Address, refs: seq<MaybeRef>)
    requires graph.Keys <= rank.Keys && a in graph
  {
    forall i :: 0 <= i < |refs| ==> LowerRef(graph, rank, a, refs[i])
  }

  lemma RankedIsLower(graph: Graph, rank: map<Address, nat>, a: Address)
    requires Closed(graph) && Ranked(graph, rank) && a in graph
    ensures Lower(graph, rank, a)
  {
    var s := graph[a];
    EdgeFalls(graph, rank, a, Items);
    EdgeFalls(graph, rank, a, Not);
    EdgeFalls(graph, rank, a, Additional);
    forall i: nat | i < |s.allOf| ensures LowerRef(graph, rank, a, s.allOf[i]) {
      EdgeFalls(graph, rank, a, AllOf(i));
    }
    forall i: nat | i < |s.anyOf| ensures LowerRef(graph, rank, a, s.anyOf[i]) {
      EdgeFalls(graph, rank, a, AnyOf(i));
    }
    forall i: nat | i < |s.oneOf| ensures LowerRef(graph, rank, a, s.oneOf[i]) {
      EdgeFalls(graph, rank, a, OneOf(i));
    }
    forall k | k in s.properties ensures LowerRef(graph, rank, a, s.properties[k]) {
      EdgeFalls(graph, rank, a, Property(k));
    }
  }

  /** The plain unfolding: it follows every reference and knows no set of open schemas. */
  ghost function UnfoldRef(graph: Graph, rank: map<Address, nat>, ref: MaybeRef): Json
    requires Closed(graph) && Ranked(graph, rank) && RefIn(graph, ref)
    decreases Height(graph, rank, ref), 1
  {
    if ref.None? then Null
    else if ref.value.target.None? then
      if ref.value.source == "" then Null else Json.Obj(map[UNRESOLVED := Str(ref.value.source)])
    else
      var a := ref.value.target.value;
      Output(ref.value.source, graph[a], UnfoldKids(graph, rank, a))
  }

  ghost function UnfoldKids(graph: Graph, rank: map<Address, nat>, a: Address): Kids
    requires Closed(graph) && Ranked(graph, rank) && a in graph
    decreases rank[a] + 1, 0
  {
    RankedIsLower(graph, rank, a);
    var s := graph[a];
    Kids(UnfoldRef(graph, rank, s.items), UnfoldRef(graph, rank, s.negated),
         UnfoldRefs(graph, rank, a, s.allOf), UnfoldRefs(graph, rank, a, s.anyOf), UnfoldRefs(graph, rank, a, s.oneOf),
         map k | k in s.properties :: UnfoldRef(graph, rank, s.properties[k]),
         if s.additionalHas.None? then UnfoldRef(graph, rank, s.additional) else Null)
  }

  ghost function UnfoldRefs(graph: Graph, rank: map<Address, nat>, a: Address, refs: seq<MaybeRef>): seq<Json>
    requires Closed(graph) && Ranked(graph, rank) && a in graph && LowerRefs(graph, rank, a, refs)
    decreases rank[a], 2
  {
    seq(|refs|, i requires 0 <= i < |refs| => UnfoldRef(graph, rank, refs[i]))
  }

  /** The open schemas all rank above what is still to be unfolded. */
  ghost predicate Above(graph: Graph, rank: map<Address, nat>, open: set<Address>, height: nat)
    requires graph.Keys <= rank.Keys
  {
    forall b :: b in open && b in graph ==> height <= rank[b]
  }

  /** On an acyclic graph the resolution is the plain unfolding. */
  lemma {:induction false} AcyclicUnfolds(graph: Graph, rank: map<Address, nat>, open: set<Address>, ref: MaybeRef)
    requires Closed(graph) && Ranked(graph, rank) && RefIn(graph, ref)
    requires Above(graph, rank, open, Height(graph, rank, ref))
    ensures ResolveRef(graph, open, ref) == UnfoldRef(graph, rank, ref)
    decreases Height(graph, rank, ref), 1
  {
    hide Unopened, Closed, Ranked, Output, KidsOf, UnfoldKids;
    var node := Node(graph, ref);
    if node.Some? {
      var a := node.value;
      InGraph(graph, a);
      KidsUnfold(graph, rank, open + {a}, a);
      SameBesideAdditional(ref.value.source, graph[a], KidsOf(graph, open + {a}, graph[a]), UnfoldKids(graph, rank, a));
    }
  }

  /** What additional properties resolve to does not show when there is a Boolean instead. */
  predicate SameKids(s: Schema, a: Kids, b: Kids) {
    a == (if s.additionalHas.None? then b else b.(additional := a.additional))
  }

  lemma SameBesideAdditional(source: string, s: Schema, a: Kids, b: Kids)
    requires SameKids(s, a, b)
    ensures Output(source, s, a) == Output(source, s, b)
  {
    hide Single, Several, Named;
  }

  lemma {:induction false} KidsUnfold(graph: Graph, rank: map<Address, nat>, open: set<Address>, a: Address)
    requires Closed(graph) && Ranked(graph, rank) && a in graph && SchemaIn(graph, graph[a])
    requires Above(graph, rank, open, rank[a])
    ensures SameKids(graph[a], KidsOf(graph, open, graph[a]), UnfoldKids(graph, rank, a))
    decreases rank[a] + 1, 0
  {
    hide Unopened, Closed, Ranked, ResolveRef, UnfoldRef;
    RankedIsLower(graph, rank, a);
    var s := graph[a];
    AcyclicUnfolds(graph, rank, open, s.items);
    AcyclicUnfolds(graph, rank, open, s.negated);
    if s.additionalHas.None? {
      AcyclicUnfolds(graph, rank, open, s.additional);
    }
    ListUnfolds(graph, rank, open, a, s.allOf);
    ListUnfolds(graph, rank, open, a, s.anyOf);
    ListUnfolds(graph, rank, open, a, s.oneOf);
    forall k | k in s.properties
      ensures ResolveRef(graph, open, s.properties[k]) == UnfoldRef(graph, rank, s.properties[k])
    {
      AcyclicUnfolds(graph, rank, open, s.properties[k]);
    }
  }

  lemma {:induction false} ListUnfolds(graph: Graph, rank: map<Address, nat>, open: set<Address>, a: Address, refs: seq<MaybeRef>)
    requires Closed(graph) && Ranked(graph, rank) && a in graph && RefsIn(graph, refs) && LowerRefs(graph, rank, a, refs)
    requires Above(graph, rank, open, rank[a])
    ensures ResolveRefs(graph, open, refs) == UnfoldRefs(graph, rank, a, refs)
    decreases rank[a], 2
  {
    hide Unopened, Closed, Ranked, ResolveRef, UnfoldRef;
    forall i | 0 <= i < |refs| ensures ResolveRef(graph, open, refs[i]) == UnfoldRef(graph, rank, refs[i]) {
      AcyclicUnfolds(graph, rank, open, refs[i]);
    }
  }

  /** In an acyclic graph every path is there, and none ends in a marker. */
  lemma AcyclicIsComplete(graph: Graph, rank: map<Address, nat>, ref: MaybeRef, path: seq<Edge>)
    requires Closed(graph) && Unshadowed(graph) && Ranked(graph, rank) && RefIn(graph, ref) && Leads(graph, ref, path)
    ensures var found := At(ResolveRef(graph, {}, ref), path);
            found.Some? && !IsMarker(found.value)
  {
    hide ResolveRef, Closed, Unshadowed, RefIn, Leads, End, IsMarker, Node, At, Ranked;
    MarkedExactlyOnReturn(graph, ref, path);
    RanksFall(graph, rank, ref, path);
  }

  lemma {:induction false} RanksFall(graph: Graph, rank: map<Address, nat>, ref: MaybeRef, path: seq<Edge>)
    requires Ranked(graph, rank) && Leads(graph, ref, path)
    ensures Distinct(Nodes(graph, ref, path))
    ensures Node(graph, End(graph, ref, path)).Some? ==>
              Node(graph, End(graph, ref, path)).value !in Nodes(graph, ref, path)
    ensures forall b :: b in Nodes(graph, ref, path) ==> b in graph && rank[b] <= rank[Node(graph, ref).value]
    ensures Node(graph, End(graph, ref, path)).Some? ==> Node(graph, ref).Some?
    ensures Node(graph, End(graph, ref, path)).Some? ==>
              rank[Node(graph, End(graph, ref, path)).value] <= rank[Node(graph, ref).value]
    decreases path
  {
    hide Follow;
    if path != [] {
      var a, next := Node(graph, ref).value, Next(graph, ref, path[0]).value;
      RanksFall(graph, rank, next, path[1..]);
      assert EdgeRanked(graph, rank, a, path[0]);
      var later := Nodes(graph, next, path[1..]);
      assert Nodes(graph, ref, path) == [a] + later;
      assert forall i :: 0 <= i < |later| ==> later[i] in later;
      if path[1..] != [] {
        assert later[0] == Node(graph, next).value;
      }
    }
  }
}
