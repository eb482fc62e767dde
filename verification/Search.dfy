/** The search: filtering and scoring through the index, and the ranked, limited result. */
module Search {
  import opened Text
  import opened Json
  import opened Sorting
  import opened SearchIndex

  /** The parsed input: method in upper case, query and tag in lower case, a positive limit. */
  datatype Query = Query(verb: string, tag: string, text: string, schema: string, status: int, limit: nat)

  function Lookup<K>(usage: Usage<K>, key: K, id: string): Option<Flags> {
    if key in usage && id in usage[key] then Some(usage[key][id]) else None
  }

  /** `schemaUsageForEndpoint`. */
  function SchemaUsageFor(ix: Indexes, schema: string, id: string): Option<Flags> {
    Lookup(ix.schemas, Lower(schema), TrimSpace(id))
  }

  /** `statusUsageForEndpoint`. */
  function StatusUsageFor(ix: Indexes, status: int, id: string): Option<Flags> {
    Lookup(ix.statuses, status, TrimSpace(id))
  }

  // ------------------------------------------------------- entries, as a plain scan

  /** Some value names the schema, ignoring case and surrounding spaces, at some depth. */
  ghost predicate NamesSchema(v: Json, key: string) {
    key != "" && exists name :: Mentions(v, name) && Lower(name) == key
  }

  ghost predicate RequestNames(endpoints: seq<Endpoint>, key: string, id: string) {
    id != "" && exists j :: 0 <= j < |endpoints| && TrimSpace(endpoints[j].id) == id && NamesSchema(endpoints[j].body, key)
  }

  ghost predicate SomeNames(responses: seq<Response>, key: string) {
    exists r :: 0 <= r < |responses| && NamesSchema(responses[r].schema, key)
  }

  ghost predicate ResponseNames(endpoints: seq<Endpoint>, key: string, id: string) {
    id != "" && exists j :: 0 <= j < |endpoints| && TrimSpace(endpoints[j].id) == id &&
                 (SomeNames(endpoints[j].success, key) || SomeNames(endpoints[j].errors, key))
  }

  ghost predicate HasStatus(responses: seq<Response>, status: int) {
    exists r :: 0 <= r < |responses| && responses[r].status == status
  }

  ghost predicate SucceedsWith(endpoints: seq<Endpoint>, status: int, id: string) {
    id != "" && status > 0 &&
    exists j :: 0 <= j < |endpoints| && TrimSpace(endpoints[j].id) == id && HasStatus(endpoints[j].success, status)
  }

  ghost predicate FailsWith(endpoints: seq<Endpoint>, status: int, id: string) {
    id != "" && status > 0 &&
    exists j :: 0 <= j < |endpoints| && TrimSpace(endpoints[j].id) == id && HasStatus(endpoints[j].errors, status)
  }

  lemma NamesKeyMeans(v: Json, key: string)
    ensures NamesKey(NamesIn(v), key) <==> NamesSchema(v, key)
  {
    hide NamesIn, Mentions, Lower;
    forall name ensures name in NamesIn(v) <==> Mentions(v, name) {
      NamesAreMentioned(v, name);
    }
  }

  lemma AmongMeans(responses: seq<Response>, key: string)
    ensures SchemaAmong(responses, |responses|, key) <==> SomeNames(responses, key)
  {
    hide NamesIn, NamesKey, NamesSchema;
    SchemaAmongMeans(responses, |responses|, key);
    forall r | 0 <= r < |responses|
      ensures NamesKey(NamesIn(responses[r].schema), key) <==> NamesSchema(responses[r].schema, key)
    {
      NamesKeyMeans(responses[r].schema, key);
    }
  }

  lemma SchemaFlagsMean(e: Endpoint, key: string)
    ensures SchemaFlags(e, key).first <==> NamesSchema(e.body, key)
    ensures SchemaFlags(e, key).second <==> SomeNames(e.success, key) || SomeNames(e.errors, key)
  {
    hide NamesIn, NamesKey, NamesSchema, SchemaAmong, SomeNames;
    NamesKeyMeans(e.body, key);
    AmongMeans(e.success, key);
    AmongMeans(e.errors, key);
  }

  /** A schema entry exists exactly if some endpoint with that trimmed id names the schema, and
      it reports request and response use exactly where it is named. */
  lemma SchemaEntryMeans(ix: Indexes, endpoints: seq<Endpoint>, schema: string, id: string)
    requires IndexOfAll(ix, endpoints)
    ensures var usage, key, op := SchemaUsageFor(ix, schema, id), Lower(schema), TrimSpace(id);
            && (usage.Some? <==> RequestNames(endpoints, key, op) || ResponseNames(endpoints, key, op))
            && (usage.Some? ==> usage.value == Flags(RequestNames(endpoints, key, op), ResponseNames(endpoints, key, op)))
  {
    hide Lower, TrimSpace, SchemaFlags, NamesSchema, SomeNames, SchemaUse, StatusUse;
    var key, op := Lower(schema), TrimSpace(id);
    SchemaUseMeans(endpoints, |endpoints|, key, op);
    forall j | 0 <= j < |endpoints|
      ensures SchemaFlags(endpoints[j], key).first <==> NamesSchema(endpoints[j].body, key)
      ensures SchemaFlags(endpoints[j], key).second <==>
              SomeNames(endpoints[j].success, key) || SomeNames(endpoints[j].errors, key)
    {
      SchemaFlagsMean(endpoints[j], key);
    }
    assert FlagsOf(ix.schemas, key, op) == SchemaUse(endpoints, |endpoints|, key, op);
  }

  /** Likewise for positive statuses, among successes and errors. */
  lemma StatusEntryMeans(ix: Indexes, endpoints: seq<Endpoint>, status: int, id: string)
    requires IndexOfAll(ix, endpoints)
    ensures var usage, op := StatusUsageFor(ix, status, id), TrimSpace(id);
            var success, error := SucceedsWith(endpoints, status, op), FailsWith(endpoints, status, op);
            && (usage.Some? <==> success || error)
            && (usage.Some? ==> usage.value == Flags(success, error))
  {
    hide TrimSpace, StatusAmong, SchemaUse, StatusUse;
    var op := TrimSpace(id);
    StatusUseMeans(endpoints, |endpoints|, status, op);
    forall j | 0 <= j < |endpoints|
      ensures StatusFlags(endpoints[j], status).first <==> status > 0 && HasStatus(endpoints[j].success, status)
      ensures StatusFlags(endpoints[j], status).second <==> status > 0 && HasStatus(endpoints[j].errors, status)
    {
      StatusAmongMeans(endpoints[j].success, |endpoints[j].success|, status);
      StatusAmongMeans(endpoints[j].errors, |endpoints[j].errors|, status);
    }
    assert FlagsOf(ix.statuses, status, op) == StatusUse(endpoints, |endpoints|, status, op);
  }

  // ---------------------------------------------------------------------- scoring

  predicate HasTag(tags: seq<string>, tag: string) {
    exists i :: 0 <= i < |tags| && ToLower(TrimSpace(tags[i])) == ToLower(tag)
  }

  function Points(when: bool, points: nat): nat {
    if when then points else 0
  }

  /** `queryMatchScore`, in tenths. */
  function TextScore(e: Endpoint, text: string): nat {
    Points(Contains(ToLower(e.id), text), 30) + Points(Contains(ToLower(e.path), text), 20) +
    Points(Contains(ToLower(e.summary), text), 20) + Points(Contains(ToLower(e.description), text), 15) +
    Points(exists i :: 0 <= i < |e.tags| && Contains(ToLower(e.tags[i]), text), 10)
  }

  function SchemaScore(usage: Flags): nat {
    if usage.first && usage.second then 50 else Points(usage.first || usage.second, 40)
  }

  /** `evaluateSearchEndpoint`, given the two usages: the score in tenths, or no match. */
  function Score(e: Endpoint, q: Query, schema: Option<Flags>, status: Option<Flags>): Option<nat> {
    if q.verb != "" && ToUpper(e.verb) != q.verb then None
    else if q.tag != "" && !HasTag(e.tags, q.tag) then None
    else if q.text != "" && TextScore(e, q.text) == 0 then None
    else if q.schema != "" && schema.None? then None
    else if q.status > 0 && status.None? then None
    else
      Some(10 + Points(q.verb != "", 4) + Points(q.tag != "", 4) +
           (if q.text != "" then TextScore(e, q.text) else 0) +
           (if q.schema != "" then SchemaScore(schema.value) else 0) +
           (if q.status > 0 then Points(status.value.second, 35) + Points(status.value.first, 20) else 0))
  }

  function Evaluate(e: Endpoint, q: Query, ix: Indexes): Option<nat> {
    Score(e, q, SchemaUsageFor(ix, q.schema, e.id), StatusUsageFor(ix, q.status, e.id))
  }

  ghost function Present(usage: Flags): Option<Flags> {
    if usage == Flags(false, false) then None else Some(usage)
  }

  /** The same score without any index: every use is looked up by scanning the endpoints. */
  ghost function ScanScore(endpoints: seq<Endpoint>, e: Endpoint, q: Query): Option<nat> {
    Score(e, q, Present(SchemaUse(endpoints, |endpoints|, Lower(q.schema), TrimSpace(e.id))),
          Present(StatusUse(endpoints, |endpoints|, q.status, TrimSpace(e.id))))
  }

  lemma IndexScoresLikeScan(ix: Indexes, endpoints: seq<Endpoint>, e: Endpoint, q: Query)
    requires IndexOfAll(ix, endpoints)
    ensures Evaluate(e, q, ix) == ScanScore(endpoints, e, q)
  {
    hide Score, Lower, TrimSpace, SchemaUse, StatusUse;
    var id := TrimSpace(e.id);
    assert FlagsOf(ix.schemas, Lower(q.schema), id) == SchemaUse(endpoints, |endpoints|, Lower(q.schema), id);
    assert FlagsOf(ix.statuses, q.status, id) == StatusUse(endpoints, |endpoints|, q.status, id);
  }

  // ---------------------------------------------------------------------- ranking

  datatype Ranked = Ranked(endpoint: Endpoint, score: nat)

  /** Higher scores first, then smaller ids. */
  function RanksBefore(a: Ranked, b: Ranked): bool {
    if a.score == b.score then Less(a.endpoint.id, b.endpoint.id) else a.score > b.score
  }

  /** The matches among the first `n` endpoints, by the scan. */
  ghost function Matches(endpoints: seq<Endpoint>, q: Query, n: nat): seq<Ranked>
    requires n <= |endpoints|
  {
    if n == 0 then []
    else
      var e := endpoints[n - 1];
      var score := ScanScore(endpoints, e, q);
      Matches(endpoints, q, n - 1) + (if score.Some? then [Ranked(e, score.value)] else [])
  }

  /** The first `limit` elements, or all. */
  function Top<T>(list: seq<T>, limit: nat): seq<T> {
    if |list| <= limit then list else list[..limit]
  }

  // ---------------------------------------------------------------- what is shown

  /** The caller's list names this part, ignoring case and surrounding spaces. */
  ghost predicate Asks(items: seq<string>, part: string) {
    exists i :: 0 <= i < |items| && Lower(items[i]) == part
  }

  /** A part is shown if it is asked for; the endpoints also if no known part is. */
  ghost predicate Shows(items: seq<string>, part: string) {
    Asks(items, part) ||
    (part == "endpoints" && forall other :: other in PARTS ==> !Asks(items, other))
  }

  const PARTS: set<string> := {"endpoints", "schemas", "usage"}

  method IncludeSet(items: seq<string>) returns (chosen: map<string, bool>)
    ensures chosen.Keys == {"endpoints", "schemas", "usage"}
    ensures forall part :: part in chosen ==> (chosen[part] <==> Shows(items, part))
  {
    hide Lower;
    chosen := map["endpoints" := false, "schemas" := false, "usage" := false];
    for n := 0 to |items|
      invariant chosen.Keys == PARTS && forall part :: part in PARTS ==> (chosen[part] <==> Asks(items[..n], part))
    {
      assert items[..n + 1] == items[..n] + [items[n]];
      var key := Lower(items[n]);
      if key in chosen {
        chosen := chosen[key := true];
      }
    }
    assert items[..|items|] == items;
    if !chosen["endpoints"] && !chosen["schemas"] && !chosen["usage"] {
      chosen := chosen["endpoints" := true];
    }
  }

  /** The search: index, evaluation, sorting, and the cut at the limit; the results are shown
      only if the caller's list asks for them, the count always. */
  method Execute(endpoints: seq<Endpoint>, q: Query, asked: seq<string>) returns (count: nat, results: seq<Ranked>)
    requires q.limit > 0
    ensures count == |Matches(endpoints, q, |endpoints|)|
    ensures results ==
            if Shows(asked, "endpoints") then Top(Sort(RanksBefore, Matches(endpoints, q, |endpoints|)), q.limit) else []
  {
    var includes := IncludeSet(asked);
    var ranked := RankAll(endpoints, q);
    count := |ranked|;
    results := [];
    if includes["endpoints"] {
      results := TakeTop(Sort(RanksBefore, ranked), q.limit);
    }
  }

  method RankAll(endpoints: seq<Endpoint>, q: Query) returns (ranked: seq<Ranked>)
    ensures ranked == Matches(endpoints, q, |endpoints|)
  {
    hide ScanScore, Evaluate, IndexOfAll;
    var ix := BuildIndexes(endpoints);
    ranked := [];
    for n := 0 to |endpoints|
      invariant ranked == Matches(endpoints, q, n)
    {
      var score := Evaluate(endpoints[n], q, ix);
      IndexScoresLikeScan(ix, endpoints, endpoints[n], q);
      if score.Some? {
        ranked := ranked + [Ranked(endpoints[n], score.value)];
      }
    }
  }

  /** The loop over the sorted matches that stops at the limit. */
  method TakeTop(sorted: seq<Ranked>, limit: nat) returns (results: seq<Ranked>)
    requires limit > 0
    ensures results == Top(sorted, limit)
  {
    results := [];
    var n := 0;
    while n < |sorted|
      invariant n <= |sorted| && n < limit && results == sorted[..n]
    {
      results := results + [sorted[n]];
      n := n + 1;
      if |results| >= limit {
        break;
      }
    }
  }

  lemma RankingLawful()
    ensures Lawful(RanksBefore)
  {
    hide Less;
    forall x, y | RanksBefore(x, y) ensures !RanksBefore(y, x) {
      LessTotal(x.endpoint.id, y.endpoint.id);
    }
    forall x, y, z | !RanksBefore(y, x) && !RanksBefore(z, y) ensures !RanksBefore(z, x) {
      LessTotal(x.endpoint.id, y.endpoint.id);
      LessTotal(y.endpoint.id, z.endpoint.id);
      LessTotal(x.endpoint.id, z.endpoint.id);
      if Less(x.endpoint.id, y.endpoint.id) && Less(y.endpoint.id, z.endpoint.id) {
        LessTransitive(x.endpoint.id, y.endpoint.id, z.endpoint.id);
      }
    }
  }

  ghost predicate DistinctIds(endpoints: seq<Endpoint>) {
    forall i, j :: 0 <= i < j < |endpoints| ==> endpoints[i].id != endpoints[j].id
  }

  /** Every match is one of the endpoints, with its scanned score. */
  lemma {:induction false} MatchesAreScored(endpoints: seq<Endpoint>, q: Query, n: nat)
    requires n <= |endpoints|
    ensures forall r: Ranked :: r in Matches(endpoints, q, n) <==>
              exists i :: 0 <= i < n && r.endpoint == endpoints[i] && ScanScore(endpoints, endpoints[i], q) == Some(r.score)
  {
    hide ScanScore;
    if n > 0 {
      MatchesAreScored(endpoints, q, n - 1);
    }
  }

  /** With distinct ids the ranking is unique: whatever sort is used, the results are the first
      `min(limit, n)` matches by descending score, then id. */
  lemma RankingUnique(endpoints: seq<Endpoint>, q: Query, any: seq<Ranked>)
    requires DistinctIds(endpoints)
    requires Ordered(RanksBefore, any) && multiset(any) == multiset(Matches(endpoints, q, |endpoints|))
    ensures any == Sort(RanksBefore, Matches(endpoints, q, |endpoints|))
  {
    hide ScanScore, Matches;
    var matches := Matches(endpoints, q, |endpoints|);
    RankingLawful();
    SortFacts(RanksBefore, matches);
    MatchesAreScored(endpoints, q, |endpoints|);
    forall i, j | 0 <= i < |any| && 0 <= j < |any| && !RanksBefore(any[i], any[j]) && !RanksBefore(any[j], any[i])
      ensures any[i] == any[j]
    {
      assert any[i] in multiset(any) && any[j] in multiset(any);
      assert any[i] in matches && any[j] in matches;
      LessTotal(any[i].endpoint.id, any[j].endpoint.id);
    }
    hide RanksBefore;
    OrderedUnique(RanksBefore, any, Sort(RanksBefore, matches));
  }

  /** The results in plain words: as many as the limit allows, all of them matches, by
      descending score and ascending id, and no match that was cut off ranks higher. */
  lemma ResultsAreBest(endpoints: seq<Endpoint>, q: Query, results: seq<Ranked>)
    requires DistinctIds(endpoints)
    requires results == Top(Sort(RanksBefore, Matches(endpoints, q, |endpoints|)), q.limit)
    ensures var matches := Matches(endpoints, q, |endpoints|);
            && |results| == (if |matches| <= q.limit then |matches| else q.limit)
            && (forall r :: r in results ==> r in matches)
            && (forall i, j :: 0 <= i < j < |results| ==>
                  results[i].score > results[j].score ||
                  (results[i].score == results[j].score && !Less(results[j].endpoint.id, results[i].endpoint.id)))
            && (forall m, r :: m in matches && m !in results && r in results ==>
                  m.score < r.score || (m.score == r.score && !Less(m.endpoint.id, r.endpoint.id)))
  {
    hide ScanScore, Matches, Less;
    var matches := Matches(endpoints, q, |endpoints|);
    var sorted := Sort(RanksBefore, matches);
    RankingLawful();
    SortFacts(RanksBefore, matches);
    assert |multiset(sorted)| == |sorted| && |multiset(matches)| == |matches|;
    forall r ensures r in sorted <==> r in matches {
      assert r in multiset(sorted) <==> r in multiset(matches);
    }
    forall m, r | m in matches && m !in results && r in results ensures !RanksBefore(m, r) {
      var i :| 0 <= i < |sorted| && sorted[i] == m;
      var j :| 0 <= j < |results| && results[j] == r;
      assert i >= |results| && sorted[j] == r;
    }
  }
}
