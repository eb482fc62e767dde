/** Building the endpoint indexes in one pass, and what a lookup in them means. */
module EndpointIndexes {
  import opened Text
  import opened Sorting
  import opened Endpoints
  import Json

  datatype Indexes = Indexes(
    endpoints: seq<Endpoint>, byMethod: map<string, seq<Endpoint>>, byId: map<string, Endpoint>)

  function HasMethod(verb: string): Endpoint -> bool {
    (e: Endpoint) => Upper(e.verb) == verb
  }

  function ListOf(byMethod: map<string, seq<Endpoint>>, verb: string): seq<Endpoint> {
    if verb in byMethod then byMethod[verb] else []
  }

  function Find(byId: map<string, Endpoint>, id: string): Option<Endpoint> {
    if id in byId then Some(byId[id]) else None
  }

  /** The last entry with this id. */
  function LastNamed(list: seq<Endpoint>, id: string): Option<Endpoint> {
    if list == [] then None
    else if list[|list| - 1].id == id then Some(list[|list| - 1])
    else LastNamed(list[..|list| - 1], id)
  }

  /** What one pass over the collected operations leaves in the indexes. */
  ghost predicate BuiltFrom(ix: Indexes, ops: seq<Endpoint>) {
    && ix.endpoints == Sort(Before, ops)
    && (forall verb :: ListOf(ix.byMethod, verb) == Sort(Before, Filter(HasMethod(verb), ops)))
    && (forall id :: Find(ix.byId, id) == LastNamed(ops, id))
  }

  lemma OneMoreEntry(ops: seq<Endpoint>, i: nat)
    requires i < |ops|
    ensures forall verb :: Filter(HasMethod(verb), ops[..i + 1]) ==
              Filter(HasMethod(verb), ops[..i]) + (if Upper(ops[i].verb) == verb then [ops[i]] else [])
    ensures forall id :: LastNamed(ops[..i + 1], id) == (if ops[i].id == id then Some(ops[i]) else LastNamed(ops[..i], id))
  {
    hide Upper, Filter;
    var front := ops[..i + 1];
    assert front == ops[..i] + [ops[i]] && front[|front| - 1] == ops[i] && front[..|front| - 1] == ops[..i];
    forall verb
      ensures Filter(HasMethod(verb), front) ==
              Filter(HasMethod(verb), ops[..i]) + (if Upper(ops[i].verb) == verb then [ops[i]] else [])
    {
      FilterAppend(HasMethod(verb), ops[..i], ops[i]);
    }
    forall id ensures LastNamed(front, id) == (if ops[i].id == id then Some(ops[i]) else LastNamed(ops[..i], id)) {
      assert front != [];
    }
  }

  lemma NoEntries()
    ensures (forall verb :: Filter(HasMethod(verb), []) == []) && (forall id :: LastNamed([], id) == None)
  {
  }

  /** The index part of `buildState`. */
  method BuildIndexes(paths: Paths) returns (ix: Indexes)
    ensures BuiltFrom(ix, Collect(paths))
  {
    hide Collect, Before, Upper, Filter, HasMethod;
    NoEntries();
    var ops := CollectOperations(paths);
    var resolved: seq<Endpoint> := [];
    var byMethod: map<string, seq<Endpoint>> := map[];
    var byId: map<string, Endpoint> := map[];
    assert ops[..0] == [];
    for i := 0 to |ops|
      invariant resolved == ops[..i]
      invariant forall verb :: ListOf(byMethod, verb) == Filter(HasMethod(verb), ops[..i])
      invariant forall id :: Find(byId, id) == LastNamed(ops[..i], id)
    {
      var entry := ops[i];
      OneMoreEntry(ops, i);
      assert ops[..i + 1] == ops[..i] + [entry];
      resolved := resolved + [entry];
      var key := Upper(entry.verb);
      byMethod := byMethod[key := ListOf(byMethod, key) + [entry]];
      byId := byId[entry.id := entry];
    }
    assert ops[..|ops|] == ops;
    byMethod := SortLists(byMethod);
    ix := Indexes(Sort(Before, resolved), byMethod, byId);
  }

  method SortLists(lists: map<string, seq<Endpoint>>) returns (sorted: map<string, seq<Endpoint>>)
    ensures forall verb :: ListOf(sorted, verb) == Sort(Before, ListOf(lists, verb))
  {
    hide Before;
    sorted := lists;
    var todo := lists.Keys;
    while todo != {}
      invariant todo <= lists.Keys == sorted.Keys
      invariant forall key :: key in lists ==>
                  sorted[key] == if key in todo then lists[key] else Sort(Before, lists[key])
    {
      var key :| key in todo;
      sorted := sorted[key := Sort(Before, sorted[key])];
      todo := todo - {key};
    }
  }

  // ------------------------------------------------------------- reading the indexes

  /** `ListEndpointsByMethod`, without the copy. */
  function ByMethod(ix: Indexes, text: string): seq<Endpoint> {
    ListOf(ix.byMethod, Upper(text))
  }

  /** `GetEndpointByOperationID`, without the copy. */
  function ById(ix: Indexes, text: string): Option<Endpoint> {
    Find(ix.byId, TrimSpace(text))
  }

  /** The list of all endpoints is the sorted collection; the list of a method is the plain
      scan of it, in the same order. */
  lemma MethodListIsScan(paths: Paths, ix: Indexes, text: string)
    requires Canonical(paths) && BuiltFrom(ix, Collect(paths))
    ensures Ordered(Before, ix.endpoints) && multiset(ix.endpoints) == multiset(Collect(paths))
    ensures ByMethod(ix, text) == Filter(HasMethod(Upper(text)), ix.endpoints)
    ensures forall e: Endpoint :: e in ix.endpoints <==> IsEntry(paths, e)
  {
    hide Collect, Before, Upper, Canonical, IsEntry;
    BeforeLawful();
    CollectedSeparates(paths);
    Collected(paths);
    SortFacts(Before, Collect(paths));
    FilterOfSort(Before, HasMethod(Upper(text)), Collect(paths));
    forall e: Endpoint ensures e in ix.endpoints <==> e in Collect(paths) {
      assert e in multiset(ix.endpoints) <==> e in multiset(Collect(paths));
    }
  }

  /** The lookup finds the last declared operation with the trimmed id, and finds one exactly
      if there is one. */
  lemma LookupIsLast(paths: Paths, ix: Indexes, text: string)
    requires Canonical(paths) && BuiltFrom(ix, Collect(paths))
    ensures match ById(ix, text)
            case Some(e) => IsEntry(paths, e) && e.id == TrimSpace(text) &&
                            forall other :: IsEntry(paths, other) && other.id == TrimSpace(text) ==> other == e || Earlier(other, e)
            case None => forall other :: IsEntry(paths, other) ==> other.id != TrimSpace(text)
  {
    hide Collect, Canonical, IsEntry, Earlier, TrimSpace;
    Collected(paths);
    LastNamedIsLast(Collect(paths), TrimSpace(text));
  }

  lemma {:induction false} LastNamedIsLast(list: seq<Endpoint>, id: string)
    requires InOrder(list)
    ensures match LastNamed(list, id)
            case Some(e) => e in list && e.id == id && forall other :: other in list && other.id == id ==> other == e || Earlier(other, e)
            case None => forall other :: other in list ==> other.id != id
  {
    hide Earlier;
    if list != [] {
      var last := |list| - 1;
      assert forall other :: other in list ==> other == list[last] || other in list[..last];
      if list[last].id == id {
        forall other | other in list && other != list[last] ensures Earlier(other, list[last]) {
          var i :| 0 <= i < |list| && list[i] == other;
        }
      } else {
        LastNamedIsLast(list[..last], id);
      }
    }
  }

  /** A declared operation is found by some text if and only if its id has no surrounding
      spaces and no later operation has the same id. */
  lemma FoundExactly(paths: Paths, ix: Indexes, e: Endpoint)
    requires Canonical(paths) && BuiltFrom(ix, Collect(paths)) && IsEntry(paths, e)
    ensures (exists text :: ById(ix, text) == Some(e)) <==>
            TrimSpace(e.id) == e.id && forall o :: IsEntry(paths, o) && o.id == e.id ==> o == e || Earlier(o, e)
  {
    hide Collect, Canonical, IsEntry, Earlier, TrimSpace, BuiltFrom, ById;
    if text :| ById(ix, text) == Some(e) {
      LookupIsLast(paths, ix, text);
      TrimSpaceFacts(text);
    }
    if TrimSpace(e.id) == e.id && forall o :: IsEntry(paths, o) && o.id == e.id ==> o == e || Earlier(o, e) {
      LookupIsLast(paths, ix, e.id);
      var found := ById(ix, e.id);
      if found.Some? && found.value != e {
        NotBothEarlier(found.value, e);
        assert false;
      }
    }
  }

  lemma NotBothEarlier(a: Endpoint, b: Endpoint)
    ensures !(Earlier(a, b) && Earlier(b, a))
  {
    hide Less, SortKey;
    LessTotal(a.path, b.path);
    LessTotal(SortKey(a.verb), SortKey(b.verb));
  }

  const SPACED := Endpoint("GET", "/x", " id ", Json.Null)
  const ONE_PATH: Paths := map["/x" := Some(map["GET" := RawOperation(" id ", Json.Null)])]

  /** A document with one operation, whose id has surrounding spaces: it is listed, and no
      text finds it. */
  lemma SpacedIdIsNeverFound(ix: Indexes, text: string)
    requires BuiltFrom(ix, Collect(ONE_PATH))
    ensures Canonical(ONE_PATH) && IsEntry(ONE_PATH, SPACED) && SPACED in ix.endpoints
    ensures ById(ix, text) != Some(SPACED)
  {
    SpacedFacts();
    hide Collect, Canonical, IsEntry, Earlier, TrimSpace, BuiltFrom, ById;
    MethodListIsScan(ONE_PATH, ix, text);
    FoundExactly(ONE_PATH, ix, SPACED);
  }

  lemma SpacedFacts()
    ensures Canonical(ONE_PATH) && IsEntry(ONE_PATH, SPACED) && TrimSpace(" id ") == "id" != " id "
  {
    var padded := " id ";
    assert padded[1..] == "id " && "id "[0] == 'i' && TrimLeft(padded) == "id ";
    assert "id "[2] == ' ' && "id "[..2] == "id" && "id"[1] == 'd' && TrimRight("id ") == TrimRight("id") == "id";
    assert |"id"| == 2 && |padded| == 4;
    assert TrimLeft("GET") == "GET" && TrimRight("GET") == "GET";
    assert ToUpper("GET") == "GET";
  }
}
