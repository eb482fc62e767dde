/** The endpoint indexes of the cached document: collection in path-then-method order, the
    sorted list, the lists by method and the map by operation id. */
module Endpoints {
  import opened Text
  import opened Json
  import opened Sorting

  /** An operation as the document has it; `details` is everything the indexes do not look at. */
  datatype RawOperation = RawOperation(id: string, details: Json)

  type PathItem = map<string, RawOperation>

  type Paths = map<string, Option<PathItem>>

  datatype Endpoint = Endpoint(verb: string, path: string, id: string, details: Json)

  /** The parser names methods in upper case and without spaces. */
  ghost predicate Canonical(paths: Paths) {
    forall path :: path in paths && paths[path].Some? ==>
      forall verb :: verb in paths[path].value ==> Upper(verb) == verb && ToUpper(verb) == verb
  }

  const METHOD_ORDER := ["GET", "POST", "PUT", "DELETE", "PATCH", "OPTIONS", "HEAD", "TRACE"]

  function IndexIn(list: seq<string>, x: string): (i: nat)
    ensures i <= |list| && (i < |list| ==> list[i] == x)
  {
    if list == [] || list[0] == x then 0 else 1 + IndexIn(list[1..], x)
  }

  /** `methodSortKey`: "000_GET" up to "007_TRACE", and "999_" before anything else. */
  function SortKey(verb: string): string {
    var rank := IndexIn(METHOD_ORDER, Upper(verb));
    (if rank < 8 then ['0', '0', Digit(rank)] else "999") + "_" + Upper(verb)
  }

  function VerbBefore(a: string, b: string): bool {
    Less(SortKey(a), SortKey(b))
  }

  /** The comparison of `sortOperations`. */
  function Before(a: Endpoint, b: Endpoint): bool {
    if SortKey(a.verb) != SortKey(b.verb) then Less(SortKey(a.verb), SortKey(b.verb))
    else if a.path != b.path then Less(a.path, b.path)
    else Less(a.id, b.id)
  }

  // ------------------------------------------------------------------ collection

  function TrimSlashes(s: string): string {
    if s != "" && s[0] == '/' then TrimSlashes(s[1..])
    else if s != "" && s[|s| - 1] == '/' then TrimSlashes(s[..|s| - 1])
    else s
  }

  function SyntheticId(verb: string, path: string): string {
    var plain := ReplaceAll(ReplaceAll(ReplaceAll(TrimSlashes(path), "/", "_"), "{", ""), "}", "");
    ToLower(TrimSpace(verb)) + "_" + (if plain == "" then "root" else plain)
  }

  /** The operation of a path and method, with its own or a synthetic id. */
  function Entry(paths: Paths, path: string, verb: string): Endpoint
    requires Declared(paths, path, verb)
  {
    var raw := paths[path].value[verb];
    var id := if TrimSpace(raw.id) == "" then SyntheticId(verb, path) else raw.id;
    Endpoint(ToUpper(verb), path, id, raw.details)
  }

  predicate Declared(paths: Paths, path: string, verb: string) {
    path in paths && paths[path].Some? && verb in paths[path].value
  }

  function VerbsOf(item: PathItem): seq<string> {
    Sort(VerbBefore, SortedKeys(item.Keys))
  }

  lemma VerbsAreKeys(item: PathItem)
    ensures forall verb :: verb in VerbsOf(item) <==> verb in item
    ensures Ordered(VerbBefore, VerbsOf(item))
  {
    VerbLawful();
    SortFacts(VerbBefore, SortedKeys(item.Keys));
    forall verb ensures verb in VerbsOf(item) <==> verb in item {
      assert verb in multiset(VerbsOf(item)) <==> verb in multiset(SortedKeys(item.Keys));
    }
  }

  function CollectPath(paths: Paths, path: string): (out: seq<Endpoint>)
    requires path in paths
  {
    if paths[path].None? then []
    else
      VerbsAreKeys(paths[path].value);
      var verbs := VerbsOf(paths[path].value);
      seq(|verbs|, i requires 0 <= i < |verbs| => Entry(paths, path, verbs[i]))
  }

  function CollectFrom(paths: Paths, names: seq<string>): seq<Endpoint>
    requires forall name :: name in names ==> name in paths
  {
    if names == [] then []
    else CollectFrom(paths, names[..|names| - 1]) + CollectPath(paths, names[|names| - 1])
  }

  /** `collectOperations`. */
  function Collect(paths: Paths): seq<Endpoint> {
    CollectFrom(paths, SortedKeys(paths.Keys))
  }

  method CollectOperations(paths: Paths) returns (out: seq<Endpoint>)
    ensures out == Collect(paths)
  {
    hide SortedKeys, CollectPath;
    var names := SortedKeys(paths.Keys);
    out := [];
    for i := 0 to |names|
      invariant out == CollectFrom(paths, names[..i])
    {
      assert names[..i + 1][..i] == names[..i];
      var ops := CollectMethods(paths, names[i]);
      out := out + ops;
    }
    assert names[..|names|] == names;
  }

  method CollectMethods(paths: Paths, path: string) returns (out: seq<Endpoint>)
    requires path in paths
    ensures out == CollectPath(paths, path)
  {
    hide Entry, VerbsOf;
    out := [];
    var item := paths[path];
    if item.None? {
      return;
    }
    VerbsAreKeys(item.value);
    var verbs := VerbsOf(item.value);
    for j := 0 to |verbs|
      invariant |out| == j && forall k :: 0 <= k < j ==> out[k] == Entry(paths, path, verbs[k])
    {
      assert verbs[j] in verbs;
      out := out + [Entry(paths, path, verbs[j])];
    }
  }

  // -------------------------------------------------------------- laws of the order

  lemma VerbLawful()
    ensures Lawful(VerbBefore)
  {
    hide SortKey, Less;
    forall x, y | VerbBefore(x, y) ensures !VerbBefore(y, x) {
      LessTotal(SortKey(x), SortKey(y));
    }
    forall x, y, z | !VerbBefore(y, x) && !VerbBefore(z, y) ensures !VerbBefore(z, x) {
      NotLessTransitive(SortKey(x), SortKey(y), SortKey(z));
    }
  }

  lemma NotLessTransitive(x: string, y: string, z: string)
    requires !Less(y, x) && !Less(z, y)
    ensures !Less(z, x)
    ensures x == z ==> x == y
  {
    hide Less;
    LessTotal(x, y);
    LessTotal(y, z);
    LessTotal(x, z);
    if x != y && y != z {
      LessTransitive(x, y, z);
    }
  }

  lemma BeforeLawful()
    ensures Lawful(Before)
  {
    hide SortKey, Less;
    forall x, y | Before(x, y) ensures !Before(y, x) {
      LessTotal(SortKey(x.verb), SortKey(y.verb));
      LessTotal(x.path, y.path);
      LessTotal(x.id, y.id);
    }
    forall x, y, z | !Before(y, x) && !Before(z, y) ensures !Before(z, x) {
      NotBeforeTransitive(x, y, z);
    }
  }

  lemma NotBeforeTransitive(x: Endpoint, y: Endpoint, z: Endpoint)
    requires !Before(y, x) && !Before(z, y)
    ensures !Before(z, x)
  {
    hide SortKey, Less;
    LessTotal(SortKey(x.verb), SortKey(y.verb));
    LessTotal(SortKey(y.verb), SortKey(z.verb));
    NotLessTransitive(SortKey(x.verb), SortKey(y.verb), SortKey(z.verb));
    if SortKey(x.verb) == SortKey(z.verb) {
      LessTotal(x.path, y.path);
      LessTotal(y.path, z.path);
      NotLessTransitive(x.path, y.path, z.path);
      if x.path == z.path {
        NotLessTransitive(x.id, y.id, z.id);
      }
    }
  }

  function Rank(verb: string): nat {
    var i := IndexIn(METHOD_ORDER, Upper(verb));
    if i < 8 then i else 999
  }

  /** Comparing the texts of the keys orders by the rank of the method, then by its name. */
  lemma SortKeyOrder(a: string, b: string)
    ensures Less(SortKey(a), SortKey(b)) <==>
            Rank(a) < Rank(b) || (Rank(a) == Rank(b) && Less(Upper(a), Upper(b)))
  {
    hide IndexIn, Upper;
    var i, j := IndexIn(METHOD_ORDER, Upper(a)), IndexIn(METHOD_ORDER, Upper(b));
    assert |METHOD_ORDER| == 8;
    KeyText(a);
    KeyText(b);
    if Rank(a) == Rank(b) {
      LessPrefix(SortKey(a)[..4], Upper(a), Upper(b));
    } else {
      assert SortKey(a)[0] != SortKey(b)[0] || (SortKey(a)[1] == SortKey(b)[1] == '0' && SortKey(a)[2] != SortKey(b)[2]);
      LessDigits(SortKey(a), SortKey(b));
    }
  }

  /** The first four characters of a key are decided by the rank. */
  lemma KeyText(v: string)
    ensures SortKey(v) == (if Rank(v) < 8 then ['0', '0', Digit(Rank(v)), '_'] else ['9', '9', '9', '_']) + Upper(v)
  {
    hide IndexIn, Upper;
    assert "999" == ['9', '9', '9'] && "_" == ['_'];
    assert |METHOD_ORDER| == 8;
  }

  lemma {:induction false} LessPrefix(head: string, a: string, b: string)
    ensures Less(head + a, head + b) <==> Less(a, b)
    decreases head
  {
    if head == [] {
      assert head + a == a && head + b == b;
    } else {
      assert (head + a)[1..] == head[1..] + a && (head + b)[1..] == head[1..] + b;
      LessPrefix(head[1..], a, b);
    }
  }

  /** Texts that differ in the first or, after equal ones, in the third character. */
  lemma LessDigits(a: string, b: string)
    requires |a| > 2 && |b| > 2
    requires a[0] != b[0] || (a[0] == b[0] && a[1] == b[1] && a[2] != b[2])
    ensures Less(a, b) <==> if a[0] != b[0] then a[0] < b[0] else a[2] < b[2]
  {
    var a1, b1 := a[1..], b[1..];
    assert a1[0] == a[1] && a1[1..][0] == a[2] && b1[0] == b[1] && b1[1..][0] == b[2];
    if a[0] == b[0] {
      assert Less(a1[1..], b1[1..]) <==> a[2] < b[2];
      assert Less(a1, b1) <==> a[2] < b[2];
    }
  }

  lemma SortKeyInjective(a: string, b: string)
    requires SortKey(a) == SortKey(b)
    ensures Upper(a) == Upper(b)
  {
    assert SortKey(a)[4..] == Upper(a);
    assert SortKey(b)[4..] == Upper(b);
  }

  // ----------------------------------------------------- what was collected

  /** Earlier path, or the same path and an earlier method. */
  ghost predicate Earlier(a: Endpoint, b: Endpoint) {
    Less(a.path, b.path) || (a.path == b.path && Less(SortKey(a.verb), SortKey(b.verb)))
  }

  ghost predicate InOrder(list: seq<Endpoint>) {
    forall i, j :: 0 <= i < j < |list| ==> Earlier(list[i], list[j])
  }

  ghost predicate IsEntry(paths: Paths, e: Endpoint) {
    Declared(paths, e.path, e.verb) && e == Entry(paths, e.path, e.verb)
  }

  lemma PathCollected(paths: Paths, path: string)
    requires Canonical(paths) && path in paths
    ensures InOrder(CollectPath(paths, path))
    ensures forall e: Endpoint :: e in CollectPath(paths, path) <==> e.path == path && IsEntry(paths, e)
  {
    hide SortKey, Less, SyntheticId, VerbsOf;
    if paths[path].Some? {
      var verbs, ops := VerbsOf(paths[path].value), CollectPath(paths, path);
      VerbsAreKeys(paths[path].value);
      assert forall i :: 0 <= i < |verbs| ==> verbs[i] in verbs && ops[i].verb == verbs[i] && ops[i].path == path;
      VerbsDistinct(paths[path].value);
      forall i, j | 0 <= i < j < |ops| ensures Earlier(ops[i], ops[j]) {
        assert Upper(verbs[i]) == verbs[i] && Upper(verbs[j]) == verbs[j];
        VerbsApart(verbs[i], verbs[j]);
      }
      forall e: Endpoint | e.path == path && IsEntry(paths, e) ensures e in ops {
        var i :| 0 <= i < |verbs| && verbs[i] == e.verb;
        assert ops[i] == e;
      }
    }
  }

  lemma VerbsApart(a: string, b: string)
    requires a != b && Upper(a) == a && Upper(b) == b && !VerbBefore(b, a)
    ensures Less(SortKey(a), SortKey(b))
  {
    hide Less, SortKey;
    LessTotal(SortKey(a), SortKey(b));
    if SortKey(a) == SortKey(b) {
      SortKeyInjective(a, b);
    }
  }

  lemma VerbsDistinct(item: PathItem)
    ensures forall i, j :: 0 <= i < j < |VerbsOf(item)| ==> VerbsOf(item)[i] != VerbsOf(item)[j]
    ensures Ordered(VerbBefore, VerbsOf(item))
  {
    var keys, verbs := SortedKeys(item.Keys), VerbsOf(item);
    VerbLawful();
    SortFacts(VerbBefore, keys);
    KeysDistinct(item.Keys);
    DistinctPermutation(keys, verbs);
  }

  lemma KeysDistinct(keys: set<string>)
    ensures forall i, j :: 0 <= i < j < |SortedKeys(keys)| ==> SortedKeys(keys)[i] != SortedKeys(keys)[j]
  {
    var list := SortedKeys(keys);
    assert Sorted(list);
    forall i, j | 0 <= i < j < |list| ensures list[i] != list[j] {
      LessTotal(list[i], list[j]);
    }
  }

  lemma {:induction false} DistinctCounts<T>(list: seq<T>, x: T)
    requires forall i, j :: 0 <= i < j < |list| ==> list[i] != list[j]
    ensures multiset(list)[x] <= 1
  {
    if list != [] {
      DistinctCounts(list[1..], x);
      Uncons(list);
      assert list[0] !in list[1..];
    }
  }

  lemma DistinctPermutation<T>(a: seq<T>, b: seq<T>)
    requires forall i, j :: 0 <= i < j < |a| ==> a[i] != a[j]
    requires multiset(a) == multiset(b)
    ensures forall i, j :: 0 <= i < j < |b| ==> b[i] != b[j]
  {
    forall i, j | 0 <= i < j < |b| ensures b[i] != b[j] {
      DistinctCounts(a, b[i]);
      assert b == b[..j] + b[j..];
      assert b[i] in b[..j] && b[j] in b[j..];
      assert multiset(b)[b[i]] == multiset(b[..j])[b[i]] + multiset(b[j..])[b[i]];
    }
  }

  lemma JoinInOrder(front: seq<Endpoint>, back: seq<Endpoint>, path: string)
    requires InOrder(front) && InOrder(back)
    requires forall e :: e in front ==> Less(e.path, path)
    requires forall e :: e in back ==> e.path == path
    ensures InOrder(front + back)
  {
    hide Less, SortKey;
    var all := front + back;
    forall i, j | 0 <= i < j < |all| ensures Earlier(all[i], all[j]) {
      if i < |front| <= j {
        assert all[i] in front && all[j] in back;
      }
    }
  }

  lemma {:induction false} NamesCollected(paths: Paths, names: seq<string>)
    requires Canonical(paths) && Sorted(names) && forall name :: name in names ==> name in paths
    ensures InOrder(CollectFrom(paths, names))
    ensures forall e: Endpoint :: e in CollectFrom(paths, names) <==> e.path in names && IsEntry(paths, e)
  {
    hide Less, IsEntry, Canonical, CollectPath, InOrder;
    if names == [] {
      assert InOrder([]) by {
        NothingInOrder();
      }
    } else {
      var last := |names| - 1;
      NamesCollected(paths, names[..last]);
      PathCollected(paths, names[last]);
      var front, back := CollectFrom(paths, names[..last]), CollectPath(paths, names[last]);
      forall e: Endpoint | e in front ensures Less(e.path, names[last]) {
        assert e.path in names[..last];
      }
      JoinInOrder(front, back, names[last]);
      assert names == names[..last] + [names[last]];
    }
  }

  lemma NothingInOrder()
    ensures InOrder([])
  {
  }

  /** The collection holds exactly the declared operations, each once, in path-then-method
      order. */
  lemma Collected(paths: Paths)
    requires Canonical(paths)
    ensures InOrder(Collect(paths))
    ensures forall e: Endpoint :: e in Collect(paths) <==> IsEntry(paths, e)
  {
    hide SortedKeys, IsEntry, Canonical, Earlier;
    NamesCollected(paths, SortedKeys(paths.Keys));
    forall e: Endpoint | IsEntry(paths, e) ensures e.path in paths {
      EntryPath(paths, e);
    }
  }

  lemma EntryPath(paths: Paths, e: Endpoint)
    requires IsEntry(paths, e)
    ensures e.path in paths
  {
  }

  /** Path and method together determine the entry, so the sorting order separates them. */
  lemma CollectedSeparates(paths: Paths)
    requires Canonical(paths)
    ensures Separates(Before, Collect(paths))
  {
    hide SortKey, Less, Collect, SyntheticId;
    Collected(paths);
    var list := Collect(paths);
    forall i, j | 0 <= i < |list| && 0 <= j < |list| && !Before(list[i], list[j]) && !Before(list[j], list[i])
      ensures list[i] == list[j]
    {
      var a, b := list[i], list[j];
      LessTotal(SortKey(a.verb), SortKey(b.verb));
      LessTotal(a.path, b.path);
      SortKeyInjective(a.verb, b.verb);
      assert IsEntry(paths, a) && IsEntry(paths, b);
    }
  }
}
