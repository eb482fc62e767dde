/** Everything a resolved schema holds at its own level: its literal keywords, its origin, its
    extensions, and the keywords that hold schemas; and what stands in for a schema that is
    open, missing or unresolved. */
module SchemaContents {
  import opened Text
  import opened Json
  import opened SchemaGraph
  import opened SchemaPaths

  /** The schema uses this keyword for other schemas. */
  predicate Uses(s: Schema, key: string) {
    || (key == "items" && s.items.Some?)
    || (key == "not" && s.negated.Some?)
    || (key == "allOf" && s.allOf != [])
    || (key == "anyOf" && s.anyOf != [])
    || (key == "oneOf" && s.oneOf != [])
    || (key == "properties" && s.properties != map[])
    || (key == "additionalProperties" && (s.additionalHas.Some? || s.additional.Some?))
  }

  /** No key but these, and all of them. */
  ghost predicate HasExactly(out: Fields, s: Schema, source: string) {
    forall k :: k in out <==>
      k in s.literals || k in s.extensions || (k == "x-originRef" && source != "") || Uses(s, k)
  }

  /** Literals unless an extension overrides them, extensions, the origin, and the Boolean of
      the additional properties. */
  ghost predicate HoldsOwn(out: Fields, s: Schema, source: string) {
    && (forall k :: k in s.literals && k !in s.extensions ==> k in out && out[k] == s.literals[k])
    && (forall k :: k in s.extensions ==> k in out && out[k] == s.extensions[k])
    && (source != "" ==> "x-originRef" in out && out["x-originRef"] == Str(source))
    && (s.additionalHas.Some? ==>
          "additionalProperties" in out && out["additionalProperties"] == Bool(s.additionalHas.value))
  }

  /** A list under a keyword has one entry for every schema in it, a map of properties one for
      every property. */
  ghost predicate HoldsLists(out: Fields, s: Schema) {
    && (s.allOf != [] ==> "allOf" in out && out["allOf"].Arr? && |out["allOf"].items| == |s.allOf|)
    && (s.anyOf != [] ==> "anyOf" in out && out["anyOf"].Arr? && |out["anyOf"].items| == |s.anyOf|)
    && (s.oneOf != [] ==> "oneOf" in out && out["oneOf"].Arr? && |out["oneOf"].items| == |s.oneOf|)
    && (s.properties != map[] ==>
          "properties" in out && out["properties"].Obj? && out["properties"].fields.Keys == s.properties.Keys)
  }

  /** The keys of the keywords that hold schemas. */
  lemma KeywordKeys(s: Schema, kids: Kids)
    requires SizesMatch(s, kids)
    ensures forall k :: k in Keywords(s, kids) <==> Uses(s, k)
  {
    KeywordsDiffer();
    EmptyMaps(s.properties, kids.properties);
    hide Single, Several, Named, Extra;
    SingleKeys("items", s.items, kids.items);
    SingleKeys("not", s.negated, kids.negated);
    SeveralKeys("allOf", kids.allOf);
    SeveralKeys("anyOf", kids.anyOf);
    SeveralKeys("oneOf", kids.oneOf);
    NamedKeys(kids.properties);
    ExtraKeys(s, kids.additional);
  }

  lemma EmptyMaps(a: map<string, MaybeRef>, b: Fields)
    requires a.Keys == b.Keys
    ensures a == map[] <==> b == map[]
  {
    if a == map[] {
      assert b.Keys == {};
    }
    if b == map[] {
      assert a.Keys == {};
    }
  }

  lemma SingleKeys(key: string, ref: MaybeRef, value: Json)
    ensures forall k :: k in Single(key, ref, value) <==> k == key && ref.Some?
  {
  }

  lemma SeveralKeys(key: string, values: seq<Json>)
    ensures forall k :: k in Several(key, values) <==> k == key && values != []
  {
  }

  lemma NamedKeys(values: Fields)
    ensures forall k :: k in Named(values) <==> k == "properties" && values != map[]
  {
  }

  lemma ExtraKeys(s: Schema, value: Json)
    ensures forall k :: k in Extra(s, value) <==> k == "additionalProperties" && (s.additionalHas.Some? || s.additional.Some?)
  {
  }

  /** What the keywords hold, apart from the schemas themselves. */
  lemma KeywordLists(s: Schema, kids: Kids)
    requires SizesMatch(s, kids)
    ensures HoldsLists(Keywords(s, kids), s)
  {
    KeywordEntries(s, kids);
    KeywordKeys(s, kids);
    EmptyMaps(s.properties, kids.properties);
    hide Keywords;
  }

  lemma KeywordFlag(s: Schema, kids: Kids)
    ensures var out := Keywords(s, kids);
            s.additionalHas.Some? ==> "additionalProperties" in out && out["additionalProperties"] == Bool(s.additionalHas.value)
  {
    KeywordEntries(s, kids);
    hide Keywords;
  }

  /** A schema that is not open resolves to an object with exactly its own contents. */
  lemma ContentsExactly(graph: Graph, open: set<Address>, a: Address, source: string)
    requires Closed(graph) && Unshadowed(graph) && a in graph && a !in open
    ensures var out := ResolveSchema(graph, open, a, source);
            && out.Obj?
            && HasExactly(out.fields, graph[a], source)
            && HoldsOwn(out.fields, graph[a], source)
            && HoldsLists(out.fields, graph[a])
  {
    hide Unopened, Closed, ResolveRef, ResolveRefs, ResolveProperties, HasExactly, HoldsOwn, HoldsLists;
    InGraph(graph, a);
    OpenOne(graph, open, a);
    var s := graph[a];
    var kids := KidsOf(graph, open + {a}, s);
    SameSizes(graph, open + {a}, s);
    OutputKeys(source, s, kids);
    OutputOwn(source, s, kids);
    OutputLists(source, s, kids);
  }

  lemma SameSizes(graph: Graph, open: set<Address>, s: Schema)
    requires Closed(graph) && SchemaIn(graph, s)
    ensures SizesMatch(s, KidsOf(graph, open, s))
  {
    hide Unopened, Closed, ResolveRef;
  }

  /** Four maps laid over each other, of which the second and the fourth may share keys. */
  lemma FourMaps(o: Fields, l: Fields, k: Fields, e: Fields)
    requires k.Keys !! o.Keys && k.Keys !! l.Keys && k.Keys !! e.Keys && o.Keys !! l.Keys && o.Keys !! e.Keys
    ensures var out := o + l + k + e;
            && out.Keys == o.Keys + l.Keys + k.Keys + e.Keys
            && (forall x :: x in o ==> out[x] == o[x]) && (forall x :: x in k ==> out[x] == k[x])
            && (forall x :: x in e ==> out[x] == e[x]) && (forall x :: x in l && x !in e ==> out[x] == l[x])
  {
  }

  ghost predicate SizesMatch(s: Schema, kids: Kids) {
    && |kids.allOf| == |s.allOf| && |kids.anyOf| == |s.anyOf| && |kids.oneOf| == |s.oneOf|
    && kids.properties.Keys == s.properties.Keys
  }

  lemma KeysApart(source: string, s: Schema, kids: Kids)
    requires s.literals.Keys !! Reserved && s.extensions.Keys !! Reserved
    ensures var o, k := Origin(source), Keywords(s, kids);
            && k.Keys !! o.Keys && k.Keys !! s.literals.Keys && k.Keys !! s.extensions.Keys
            && o.Keys !! s.literals.Keys && o.Keys !! s.extensions.Keys
    ensures forall x :: x in Origin(source) <==> x == "x-originRef" && source != ""
    ensures source != "" ==> Origin(source)["x-originRef"] == Str(source)
  {
    KeywordsDiffer();
    KeywordEntries(s, kids);
    hide Keywords;
    assert KEYWORDS <= Reserved && "x-originRef" in Reserved && "x-originRef" !in KEYWORDS;
  }

  lemma OutputKeys(source: string, s: Schema, kids: Kids)
    requires s.literals.Keys !! Reserved && s.extensions.Keys !! Reserved && SizesMatch(s, kids)
    ensures HasExactly(Output(source, s, kids).fields, s, source)
  {
    KeywordKeys(s, kids);
    KeysApart(source, s, kids);
    hide Keywords, Origin, Uses, Reserved, SizesMatch;
  }

  lemma OutputOwn(source: string, s: Schema, kids: Kids)
    requires s.literals.Keys !! Reserved && s.extensions.Keys !! Reserved
    ensures HoldsOwn(Output(source, s, kids).fields, s, source)
  {
    KeywordFlag(s, kids);
    KeysApart(source, s, kids);
    hide Keywords, Origin, Reserved;
    FourMaps(Origin(source), s.literals, Keywords(s, kids), s.extensions);
  }

  lemma OutputLists(source: string, s: Schema, kids: Kids)
    requires s.literals.Keys !! Reserved && s.extensions.Keys !! Reserved && SizesMatch(s, kids)
    ensures HoldsLists(Output(source, s, kids).fields, s)
  {
    hide HoldsLists;
    KeywordLists(s, kids);
    KeysApart(source, s, kids);
    hide Keywords, Origin, Reserved, SizesMatch;
    FourMaps(Origin(source), s.literals, Keywords(s, kids), s.extensions);
    ListsKept(Keywords(s, kids), Output(source, s, kids).fields, s);
  }

  /** The lists stay what they are when more is around them. */
  lemma ListsKept(keywords: Fields, out: Fields, s: Schema)
    requires HoldsLists(keywords, s) && forall k :: k in keywords ==> k in out && out[k] == keywords[k]
    ensures HoldsLists(out, s)
  {
  }

  /** Instead of a schema: the text of the reference, or nothing at all. */
  lemma MarkersExactly(graph: Graph, open: set<Address>, ref: MaybeRef)
    requires Closed(graph) && RefIn(graph, ref)
    ensures ref.None? ==> ResolveRef(graph, open, ref) == Null
    ensures ref.Some? && ref.value.target.None? ==>
              ResolveRef(graph, open, ref) ==
              if ref.value.source == "" then Null else Json.Obj(map["x-unresolvedRef" := Str(ref.value.source)])
    ensures ref.Some? && ref.value.target.Some? && ref.value.target.value in open ==>
              ResolveRef(graph, open, ref) ==
              Json.Obj(map["x-circularRef" := if ref.value.source == "" then Bool(true) else Str(ref.value.source)])
  {
    hide Unopened, Output, KidsOf;
  }
}
