/** What a search finds, said of the endpoints themselves: which of them match, and how many
    points each of them gets for what. */
module SearchMeaning {
  import opened Text
  import opened Json
  import opened Pointer
  import opened SearchIndex
  import opened Search

  // ---------------------------------------------------------------- what matches

  predicate IsMethod(e: Endpoint, verb: string) {
    ToUpper(e.verb) == verb
  }

  ghost predicate Tagged(e: Endpoint, tag: string) {
    exists t :: t in e.tags && ToLower(TrimSpace(t)) == ToLower(tag)
  }

  ghost predicate InSomeTag(e: Endpoint, text: string) {
    exists t :: t in e.tags && Occurs(text, ToLower(t))
  }

  ghost predicate Mentioned(e: Endpoint, text: string) {
    || Occurs(text, ToLower(e.id)) || Occurs(text, ToLower(e.path)) || Occurs(text, ToLower(e.summary))
    || Occurs(text, ToLower(e.description)) || InSomeTag(e, text)
  }

  /** Every condition the query sets, and no other. */
  ghost predicate Wanted(endpoints: seq<Endpoint>, e: Endpoint, q: Query) {
    var id := TrimSpace(e.id);
    && (q.verb != "" ==> IsMethod(e, q.verb))
    && (q.tag != "" ==> Tagged(e, q.tag))
    && (q.text != "" ==> Mentioned(e, q.text))
    && (q.schema != "" ==>
          RequestNames(endpoints, ToLower(TrimSpace(q.schema)), id) || ResponseNames(endpoints, ToLower(TrimSpace(q.schema)), id))
    && (q.status > 0 ==> SucceedsWith(endpoints, q.status, id) || FailsWith(endpoints, q.status, id))
  }

  // ------------------------------------------------------------------- the points

  function If(holds: bool, tenths: nat): nat {
    if holds then tenths else 0
  }

  /** In tenths of a point: three for the id, two for the path, two for the summary, one and a
      half for the description, one for a tag. */
  ghost function TextPoints(e: Endpoint, text: string): nat {
    If(Occurs(text, ToLower(e.id)), 30) + If(Occurs(text, ToLower(e.path)), 20) + If(Occurs(text, ToLower(e.summary)), 20)
    + If(Occurs(text, ToLower(e.description)), 15) + If(InSomeTag(e, text), 10)
  }

  /** Four for a request or a response, five for both. */
  ghost function SchemaPoints(endpoints: seq<Endpoint>, key: string, id: string): nat {
    If(RequestNames(endpoints, key, id) && !ResponseNames(endpoints, key, id), 40)
    + If(!RequestNames(endpoints, key, id) && ResponseNames(endpoints, key, id), 40)
    + If(RequestNames(endpoints, key, id) && ResponseNames(endpoints, key, id), 50)
  }

  /** Three and a half for an error, two for a success. */
  ghost function StatusPoints(endpoints: seq<Endpoint>, status: int, id: string): nat {
    If(FailsWith(endpoints, status, id), 35) + If(SucceedsWith(endpoints, status, id), 20)
  }

  /** One point for every match, and what each condition adds. */
  ghost function PointsOf(endpoints: seq<Endpoint>, e: Endpoint, q: Query): nat {
    var id := TrimSpace(e.id);
    10 + If(q.verb != "", 4) + If(q.tag != "", 4)
    + (if q.text != "" then TextPoints(e, q.text) else 0)
    + (if q.schema != "" then SchemaPoints(endpoints, ToLower(TrimSpace(q.schema)), id) else 0)
    + (if q.status > 0 then StatusPoints(endpoints, q.status, id) else 0)
  }

  lemma TextMeans(e: Endpoint, text: string)
    ensures TextScore(e, text) == TextPoints(e, text)
    ensures TextScore(e, text) == 0 <==> !Mentioned(e, text)
  {
    hide Contains, Occurs, ToLower;
    ContainsMeans(ToLower(e.id), text);
    ContainsMeans(ToLower(e.path), text);
    ContainsMeans(ToLower(e.summary), text);
    ContainsMeans(ToLower(e.description), text);
    forall t | t in e.tags ensures Contains(ToLower(t), text) <==> Occurs(text, ToLower(t)) {
      ContainsMeans(ToLower(t), text);
    }
    if t :| t in e.tags && Occurs(text, ToLower(t)) {
      var i :| 0 <= i < |e.tags| && e.tags[i] == t;
      assert Contains(ToLower(e.tags[i]), text);
    }
  }

  /** An endpoint's score: none if some condition fails, and otherwise its points. */
  lemma ScoreMeans(endpoints: seq<Endpoint>, e: Endpoint, q: Query)
    ensures ScanScore(endpoints, e, q) ==
            if Wanted(endpoints, e, q) then Some(PointsOf(endpoints, e, q)) else None
  {
    hide TextScore, TextPoints, Mentioned, HasTag, Tagged, ToLower, TrimSpace, SchemaUse, StatusUse, RequestNames, ResponseNames,
         SucceedsWith, FailsWith;
    var id, key := TrimSpace(e.id), ToLower(TrimSpace(q.schema));
    TextMeans(e, q.text);
    UsesMean(endpoints, key, q.status, id);
    TagMeans(e, q.tag);
  }

  lemma TagMeans(e: Endpoint, tag: string)
    ensures HasTag(e.tags, tag) <==> Tagged(e, tag)
  {
    hide ToLower, TrimSpace;
    if t :| t in e.tags && ToLower(TrimSpace(t)) == ToLower(tag) {
      var i :| 0 <= i < |e.tags| && e.tags[i] == t;
    }
  }

  lemma UsesMean(endpoints: seq<Endpoint>, key: string, status: int, id: string)
    ensures SchemaUse(endpoints, |endpoints|, key, id) ==
            Flags(RequestNames(endpoints, key, id), ResponseNames(endpoints, key, id))
    ensures StatusUse(endpoints, |endpoints|, status, id) ==
            Flags(SucceedsWith(endpoints, status, id), FailsWith(endpoints, status, id))
  {
    hide SchemaFlags, NamesSchema, SomeNames, SchemaUse, StatusUse, StatusAmong, TrimSpace, Lower;
    SchemaUseMeans(endpoints, |endpoints|, key, id);
    StatusUseMeans(endpoints, |endpoints|, status, id);
    forall j | 0 <= j < |endpoints|
      ensures SchemaFlags(endpoints[j], key).first <==> NamesSchema(endpoints[j].body, key)
      ensures SchemaFlags(endpoints[j], key).second <==>
              SomeNames(endpoints[j].success, key) || SomeNames(endpoints[j].errors, key)
      ensures StatusFlags(endpoints[j], status).first <==> status > 0 && HasStatus(endpoints[j].success, status)
      ensures StatusFlags(endpoints[j], status).second <==> status > 0 && HasStatus(endpoints[j].errors, status)
    {
      SchemaFlagsMean(endpoints[j], key);
      StatusAmongMeans(endpoints[j].success, |endpoints[j].success|, status);
      StatusAmongMeans(endpoints[j].errors, |endpoints[j].errors|, status);
    }
  }

  /** The matches of a search are exactly the wanted endpoints with their points. */
  lemma MatchesExactly(endpoints: seq<Endpoint>, q: Query)
    ensures forall r: Ranked :: r in Matches(endpoints, q, |endpoints|) <==>
              exists i :: 0 <= i < |endpoints| && r.endpoint == endpoints[i] &&
                          Wanted(endpoints, endpoints[i], q) && r.score == PointsOf(endpoints, endpoints[i], q)
  {
    hide ScanScore, Wanted, PointsOf, Matches;
    MatchesAreScored(endpoints, q, |endpoints|);
    forall i | 0 <= i < |endpoints|
      ensures ScanScore(endpoints, endpoints[i], q) ==
              if Wanted(endpoints, endpoints[i], q) then Some(PointsOf(endpoints, endpoints[i], q)) else None
    {
      ScoreMeans(endpoints, endpoints[i], q);
    }
  }

  /** How many of the first `n` endpoints are wanted. */
  ghost function WantedCount(endpoints: seq<Endpoint>, q: Query, n: nat): nat
    requires n <= |endpoints|
  {
    if n == 0 then 0
    else WantedCount(endpoints, q, n - 1) + (if Wanted(endpoints, endpoints[n - 1], q) then 1 else 0)
  }

  /** The count of a search is the number of wanted endpoints. */
  lemma {:induction false} CountMeans(endpoints: seq<Endpoint>, q: Query, n: nat)
    requires n <= |endpoints|
    ensures |Matches(endpoints, q, n)| == WantedCount(endpoints, q, n)
  {
    hide ScanScore, Wanted, PointsOf;
    if n > 0 {
      CountMeans(endpoints, q, n - 1);
      ScoreMeans(endpoints, endpoints[n - 1], q);
    }
  }

  // ----------------------------------------------------------- the names of schemas

  lemma {:induction false} UpToSlash(s: string, rest: string)
    requires '/' !in s && (rest == "" || rest[0] == '/')
    ensures BeforeSlash(s + rest) == s
  {
    if s == "" {
      assert s + rest == rest;
    } else {
      assert s[0] in s && (s + rest)[1..] == s[1..] + rest;
      UpToSlash(s[1..], rest);
    }
  }

  /** Escaping leaves a text that begins and ends visibly as it begins and ends. */
  lemma {:induction false} EncodedEnds(s: string)
    requires s != "" && !IsSpace(s[|s| - 1])
    ensures EncodeToken(s) != "" && !IsSpace(EncodeToken(s)[|EncodeToken(s)| - 1])
  {
    if |s| > 1 {
      EncodedEnds(s[1..]);
    } else {
      assert s[1..] == "" && EncodeToken("") == "";
    }
  }

  lemma TrimmedAlready(s: string)
    requires s != "" && !IsSpace(s[0]) && !IsSpace(s[|s| - 1])
    ensures TrimSpace(s) == s
  {
    assert TrimLeft(s) == s && TrimRight(s) == s;
  }

  /** The reference to a component names it: whatever the name, escaped as in section 4 of
      RFC 6901, and whatever the path inside the component. */
  lemma ComponentIsNamed(name: string, inside: string)
    requires name != "" && TrimSpace(name) == name
    requires inside == "" || (inside[0] == '/' && !IsSpace(inside[|inside| - 1]))
    ensures NameFromRef("#/components/schemas/" + EncodeToken(name) + inside) == Some(name)
  {
    var code := EncodeToken(name);
    var tail := code + inside;
    var head := "#/components/schemas/";
    var ref := head + tail;
    assert head + code + inside == ref;
    TrimEnds(name);
    EncodedEnds(name);
    EncodedPlain(name);
    DecodeEncode(name);
    UpToSlash(code, inside);
    assert |head| == 21 && head[0] == '#' && head[1..] == "/components/schemas/";
    assert !IsSpace(code[0]) && tail[0] == code[0];
    assert tail[|tail| - 1] == if inside == "" then code[|code| - 1] else inside[|inside| - 1];
    TrimmedAlready(tail);
    assert ref[|ref| - 1] == tail[|tail| - 1];
    TrimmedAlready(ref);
    AfterHead(tail);
  }

  /** A reference to anything else names no schema. */
  lemma OthersAreNotNamed(ref: string)
    requires !Occurs("/components/schemas/", TrimSpace(ref))
    ensures NameFromRef(ref) == None
  {
    ContainsMeans(TrimSpace(ref), "/components/schemas/");
  }

  lemma AfterHead(code: string)
    ensures RestAfter("#/components/schemas/" + code, "/components/schemas/") == Some(code)
  {
    var part := "/components/schemas/";
    var ref := "#/components/schemas/" + code;
    assert ref[0] == '#' && part[0] == '/' && !(part <= ref);
    assert ref[1..] == part + code;
    assert IndexOf(ref[1..], part) == Some(0);
    assert IndexOf(ref, part) == Some(1);
    assert |part| == 20 && ref[21..] == code;
  }

  /** A reference that is found in an object of the value names its component. */
  lemma ReferenceIsMention(key: string, name: string, rest: Fields)
    requires key in {"x-originRef", "x-circularRef", "x-unresolvedRef"} && name != "" && TrimSpace(name) == name
    ensures Mentions(Json.Obj(rest[key := Str("#/components/schemas/" + EncodeToken(name))]), name)
  {
    ComponentIsNamed(name, "");
    hide NameFromRef;
    assert "#/components/schemas/" + EncodeToken(name) + "" == "#/components/schemas/" + EncodeToken(name);
    var v := Json.Obj(rest[key := Str("#/components/schemas/" + EncodeToken(name))]);
    assert MentionsAt(v, [], key, name);
  }
}
