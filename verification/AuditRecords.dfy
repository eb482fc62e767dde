/** The audit record of a call: its request half is redacted completely; its response body
    arrives as a struct, which redaction does not look into. */
module AuditRecords {
  import opened Text
  import opened Json
  import opened Redaction

  type Headers = map<string, string>

  /** What an entry holds as a body: plain JSON, or the struct around a decoded response. */
  datatype Logged = Body(v: Json) | Envelope(contentType: string, bodyEncoding: string, body: Json)

  /** As the record shows it: a struct by its field names. */
  function Printed(x: Logged): Json {
    match x
    case Body(v) => v
    case Envelope(contentType, bodyEncoding, body) =>
      Json.Obj(map["ContentType" := Str(contentType), "BodyEncoding" := Str(bodyEncoding), "Body" := body])
  }

  // ----------------------------------------------------------- what a call leaves

  /** The bytes of a response: as text, whether they are readable text, and in base 64. */
  datatype Payload = Payload(text: string, isText: bool, base64: string)

  /** A response without a payload is one whose body could not be read. */
  datatype Response = Response(headers: Headers, contentType: string, payload: Option<Payload>)

  datatype Call = Call(headers: Headers, body: Json, response: Option<Response>)

  predicate IsJsonContentType(contentType: string) {
    Contains(Lower(contentType), "json")
  }

  function DefaultContentType(contentType: string, encoding: string): string {
    if contentType != "" then contentType
    else if encoding == "json" then "application/json"
    else if encoding == "base64" then "application/octet-stream"
    else "text/plain; charset=utf-8"
  }

  /** `decodeResponseBody`. */
  function Decode(codec: Codec, contentType: string, p: Payload): Logged {
    var ct := TrimSpace(contentType);
    if p.text == "" then Envelope(DefaultContentType(ct, "text"), "text", Str(""))
    else
      var parsed := if IsJsonContentType(ct) || LooksLikeJson(p.text) then codec.parse(p.text) else None;
      if parsed.Some? then Envelope(DefaultContentType(ct, "json"), "json", parsed.value)
      else if p.isText then Envelope(DefaultContentType(ct, "text"), "text", Str(p.text))
      else Envelope(DefaultContentType(ct, "base64"), "base64", Str(p.base64))
  }

  datatype Entry = Entry(requestHeaders: Headers, requestBody: Logged, responseHeaders: Headers, responseBody: Logged)

  /** The entry of a call: nothing stands for a response that did not come or was not read. */
  function EntryOf(codec: Codec, call: Call): Entry {
    match call.response
    case None => Entry(call.headers, Body(call.body), map[], Body(Null))
    case Some(r) =>
      Entry(call.headers, Body(call.body), r.headers,
            if r.payload.None? then Body(Null) else Decode(codec, r.contentType, r.payload.value))
  }

  // ------------------------------------------------------------------- the logger

  datatype Record = Record(requestHeaders: Headers, requestBody: Json, responseHeaders: Headers, responseBody: Json)

  /** `redactJSON`: nothing is done to a struct. */
  ghost function RedactLogged(codec: Codec, listed: set<string>, x: Logged): Logged
    requires Lawful(codec)
  {
    if x.Body? then Body(Redact(codec, listed, x.v)) else x
  }

  ghost function RecordOf(codec: Codec, headers: set<string>, fields: set<string>, e: Entry): Record
    requires Lawful(codec)
  {
    Record(RedactedHeaders(e.requestHeaders, headers), Printed(RedactLogged(codec, fields, e.requestBody)),
           RedactedHeaders(e.responseHeaders, headers), Printed(RedactLogged(codec, fields, e.responseBody)))
  }

  class SlogLogger {
    const enabled: bool
    const headers: set<string>
    const fields: set<string>

    constructor (enabled: bool, headers: seq<string>, fields: seq<string>)
      ensures this.enabled == enabled
      ensures forall x :: x in this.headers <==> Lists(headers, Lower, x)
      ensures forall x :: x in this.fields <==> Lists(fields, Lower, x)
    {
      hide Lower;
      this.enabled := enabled;
      var h := LowerSet(headers);
      var f := LowerSet(fields);
      this.headers, this.fields := h, f;
    }

    /** What is written, if anything. */
    method LogCall(codec: Codec, e: Entry) returns (record: Option<Record>)
      requires Lawful(codec)
      ensures record == if enabled then Some(RecordOf(codec, headers, fields, e)) else None
    {
      hide Lawful, Redact;
      if !enabled {
        return None;
      }
      var requestHeaders := RedactHeaders(e.requestHeaders, headers);
      var requestBody := RedactBody(codec, fields, e.requestBody);
      var responseHeaders := RedactHeaders(e.responseHeaders, headers);
      var responseBody := RedactBody(codec, fields, e.responseBody);
      record := Some(Record(requestHeaders, Printed(requestBody), responseHeaders, Printed(responseBody)));
    }
  }

  method RedactBody(codec: Codec, listed: set<string>, x: Logged) returns (out: Logged)
    requires Lawful(codec)
    ensures out == RedactLogged(codec, listed, x)
  {
    hide Lawful, Redact;
    out := x;
    if x.Body? {
      var v := RedactNode(codec, listed, x.v);
      out := Body(v);
    }
  }

  // ------------------------------------------------------- what shows in a value

  /** The path leads to a listed key that holds something else than "[REDACTED]". */
  predicate Shows(codec: Codec, listed: set<string>, v: Json, path: seq<Hop>) {
    && path != [] && IsListed(listed, path[|path| - 1])
    && Reached(codec, v, path).Some? && Reached(codec, v, path) != Some(Str(REDACTED))
  }

  ghost predicate Leaks(codec: Codec, listed: set<string>, v: Json) {
    exists path :: Shows(codec, listed, v, path)
  }

  /** A key with its value: redacted if listed, clean if not. */
  ghost predicate CleanEntry(codec: Codec, listed: set<string>, key: string, v: Json)
    requires Lawful(codec)
    decreases TextLen(v), v, 1
  {
    if Lower(key) in listed then v == Str(REDACTED) else Clean(codec, listed, v)
  }

  /** Every listed key, at any depth and in JSON inside strings, holds "[REDACTED]". */
  ghost predicate Clean(codec: Codec, listed: set<string>, v: Json)
    requires Lawful(codec)
    decreases TextLen(v), v, 0
  {
    PartLen(v);
    match v
    case Obj(m) => forall k :: k in m ==> CleanEntry(codec, listed, k, m[k])
    case Arr(items) => forall i :: 0 <= i < |items| ==> Clean(codec, listed, items[i])
    case Str(s) => Inner(codec, s).Some? ==> Clean(codec, listed, Inner(codec, s).value)
    case _ => true
  }

  /** One step from a clean value leads to a clean value, or to "[REDACTED]" at a listed key. */
  lemma CleanHop(codec: Codec, listed: set<string>, v: Json, hop: Hop)
    requires Lawful(codec) && Clean(codec, listed, v) && HopTo(codec, v, hop).Some?
    ensures var next := HopTo(codec, v, hop).value;
            if IsListed(listed, hop) then next == Str(REDACTED) else Clean(codec, listed, next)
  {
    hide TextLen, LooksLikeJson, Lower, Lawful, Inner;
    if hop.Key? {
      assert CleanEntry(codec, listed, hop.key, v.fields[hop.key]);
    }
  }

  lemma {:induction false} CleanShowsNothing(codec: Codec, listed: set<string>, v: Json, path: seq<Hop>)
    requires Lawful(codec) && Clean(codec, listed, v)
    ensures !Shows(codec, listed, v, path)
    decreases path
  {
    hide TextLen, LooksLikeJson, Lower, Lawful, Inner, Clean, HopTo;
    if path != [] && HopTo(codec, v, path[0]).Some? {
      CleanHop(codec, listed, v, path[0]);
      var next := HopTo(codec, v, path[0]).value;
      if IsListed(listed, path[0]) {
        NothingInRedacted(codec, path[1..]);
      } else if |path| > 1 {
        CleanShowsNothing(codec, listed, next, path[1..]);
      }
    }
  }

  /** What is not clean shows something: the path to it. */
  lemma {:induction false} UncleanShows(codec: Codec, listed: set<string>, v: Json) returns (path: seq<Hop>)
    requires Lawful(codec) && !Clean(codec, listed, v)
    ensures Shows(codec, listed, v, path)
    decreases TextLen(v), v
  {
    hide TextLen, LooksLikeJson, Lower, Lawful, Inner;
    PartLen(v);
    match v
    case Obj(m) =>
      var k :| k in m && !CleanEntry(codec, listed, k, m[k]);
      if Lower(k) in listed {
        path := [Key(k)];
        OneHop(codec, v, Key(k));
      } else {
        var rest := UncleanShows(codec, listed, m[k]);
        path := Longer(codec, listed, v, Key(k), rest);
      }
    case Arr(items) =>
      var i: nat :| i < |items| && !Clean(codec, listed, items[i]);
      var rest := UncleanShows(codec, listed, items[i]);
      path := Longer(codec, listed, v, Index(i), rest);
    case Str(s) =>
      ShorterInside(codec, s);
      var rest := UncleanShows(codec, listed, Inner(codec, s).value);
      path := Longer(codec, listed, v, Inside, rest);
  }

  lemma ShorterInside(codec: Codec, s: string)
    requires Lawful(codec)
    ensures Inner(codec, s).Some? ==> TextLen(Inner(codec, s).value) < TextLen(Str(s))
  {
    hide LooksLikeJson;
    StringLen(s);
  }

  lemma OneHop(codec: Codec, v: Json, hop: Hop)
    ensures Reached(codec, v, [hop]) == HopTo(codec, v, hop)
  {
    hide HopTo;
    assert [hop][1..] == [];
  }

  lemma Longer(codec: Codec, listed: set<string>, v: Json, hop: Hop, rest: seq<Hop>) returns (path: seq<Hop>)
    requires HopTo(codec, v, hop).Some? && Shows(codec, listed, HopTo(codec, v, hop).value, rest)
    ensures path == [hop] + rest && Shows(codec, listed, v, path)
  {
    hide HopTo, IsListed;
    path := [hop] + rest;
    assert path[1..] == rest && path[|path| - 1] == rest[|rest| - 1];
  }

  /** Leaking nothing is being clean. */
  lemma LeaksExactly(codec: Codec, listed: set<string>, v: Json)
    requires Lawful(codec)
    ensures Leaks(codec, listed, v) <==> !Clean(codec, listed, v)
  {
    hide Lawful, Clean, Shows;
    if Clean(codec, listed, v) {
      forall path ensures !Shows(codec, listed, v, path) {
        CleanShowsNothing(codec, listed, v, path);
      }
    } else {
      var path := UncleanShows(codec, listed, v);
    }
  }

  // ---------------------------------------------------------------- the theorems

  /** Redacted JSON is clean. */
  lemma RedactedIsClean(codec: Codec, listed: set<string>, v: Json)
    requires Lawful(codec)
    ensures Clean(codec, listed, Redact(codec, listed, v)) && !Leaks(codec, listed, Redact(codec, listed, v))
  {
    hide Lawful, Clean, Redact, Reached, TrimSpace, ToLower;
    var out := Redact(codec, listed, v);
    forall path ensures !Shows(codec, listed, out, path) {
      if Shows(codec, listed, out, path) {
        NoListedEntrySurvives(codec, listed, v, path);
      }
    }
    LeaksExactly(codec, listed, out);
  }

  /** The three fields of a struct, each against the listed names. */
  ghost predicate CleanEnvelope(codec: Codec, listed: set<string>, x: Logged)
    requires Lawful(codec) && x.Envelope?
  {
    && CleanEntry(codec, listed, "ContentType", Str(x.contentType))
    && CleanEntry(codec, listed, "BodyEncoding", Str(x.bodyEncoding))
    && CleanEntry(codec, listed, "Body", x.body)
  }

  /** What is logged shows no listed entry if and only if it is plain JSON, or a struct that
      was clean when it came. */
  lemma LoggedExactly(codec: Codec, listed: set<string>, x: Logged)
    requires Lawful(codec)
    ensures !Leaks(codec, listed, Printed(RedactLogged(codec, listed, x))) <==> x.Body? || CleanEnvelope(codec, listed, x)
  {
    hide Lawful, Leaks, Redact, CleanEntry;
    if x.Body? {
      RedactedIsClean(codec, listed, x.v);
    } else {
      LeaksExactly(codec, listed, Printed(x));
      FieldsByName(codec, listed, x);
    }
  }

  lemma FieldsByName(codec: Codec, listed: set<string>, x: Logged)
    requires Lawful(codec) && x.Envelope?
    ensures Clean(codec, listed, Printed(x)) <==> CleanEnvelope(codec, listed, x)
  {
    hide Lawful, CleanEntry, TextLen;
    var m := Printed(x).fields;
    assert "ContentType" != "BodyEncoding" && "ContentType" != "Body" && "BodyEncoding" != "Body" by {
      assert |"ContentType"| == 11 && |"BodyEncoding"| == 12 && |"Body"| == 4;
    }
    assert m.Keys == {"ContentType", "BodyEncoding", "Body"};
    assert m["ContentType"] == Str(x.contentType) && m["BodyEncoding"] == Str(x.bodyEncoding) && m["Body"] == x.body;
  }

  /** Everything else of a record: no header is lost, headers that are not listed keep their
      values, and without a response body there is nothing in its place. */
  lemma RecordKeeps(codec: Codec, headers: set<string>, fields: set<string>, call: Call)
    requires Lawful(codec)
    ensures var r := RecordOf(codec, headers, fields, EntryOf(codec, call));
            && r.requestHeaders.Keys == call.headers.Keys
            && (forall k :: k in call.headers && ToLower(TrimSpace(k)) !in headers ==> r.requestHeaders[k] == call.headers[k])
            && (call.response.None? ==> r.responseHeaders == map[])
            && (call.response.Some? ==>
                  && r.responseHeaders.Keys == call.response.value.headers.Keys
                  && forall k :: k in r.responseHeaders && ToLower(TrimSpace(k)) !in headers ==>
                       r.responseHeaders[k] == call.response.value.headers[k])
            && (!HasBody(call) ==> r.responseBody == Null)
  {
    hide Lawful, Redact, TrimSpace, ToLower, Decode;
    NullStays(codec, fields);
  }

  lemma NullStays(codec: Codec, listed: set<string>)
    requires Lawful(codec)
    ensures Redact(codec, listed, Null) == Null
  {
    hide Lawful;
  }

  /** The request half of every record: no listed header and no listed field shows. */
  lemma RequestHalfIsClean(codec: Codec, headers: set<string>, fields: set<string>, call: Call)
    requires Lawful(codec)
    ensures var r := RecordOf(codec, headers, fields, EntryOf(codec, call));
            && !Leaks(codec, fields, r.requestBody)
            && forall k :: k in r.requestHeaders && Lower(k) in headers ==> r.requestHeaders[k] == REDACTED
  {
    hide Lawful, Leaks, Redact, Lower, Decode;
    RedactedIsClean(codec, fields, call.body);
  }

  /** A response with a body that was read. */
  predicate HasBody(call: Call) {
    call.response.Some? && call.response.value.payload.Some?
  }

  function ResponseStruct(codec: Codec, call: Call): (x: Logged)
    requires HasBody(call)
    ensures x.Envelope? && x.bodyEncoding in ["json", "text", "base64"]
  {
    Decode(codec, call.response.value.contentType, call.response.value.payload.value)
  }

  /** The response half: no listed header shows; no listed field shows if and only if there is
      no body, or the names of the struct's fields and the decoded body are clean already,
      without any redaction. */
  lemma ResponseHalfExactly(codec: Codec, headers: set<string>, fields: set<string>, call: Call)
    requires Lawful(codec)
    ensures var r := RecordOf(codec, headers, fields, EntryOf(codec, call));
            && (forall k :: k in r.responseHeaders && Lower(k) in headers ==> r.responseHeaders[k] == REDACTED)
            && (!Leaks(codec, fields, r.responseBody) <==> !HasBody(call) || BodyIsClean(codec, fields, call))
  {
    hide Lawful, Leaks, Redact, Lower, CleanEntry, Decode;
    LoggedExactly(codec, fields, EntryOf(codec, call).responseBody);
    if HasBody(call) {
      EncodingIsClean(codec, fields, ResponseStruct(codec, call).bodyEncoding);
    }
  }

  ghost predicate BodyIsClean(codec: Codec, listed: set<string>, call: Call)
    requires Lawful(codec) && HasBody(call)
  {
    var x := ResponseStruct(codec, call);
    && Lower("BodyEncoding") !in listed
    && CleanEntry(codec, listed, "ContentType", Str(x.contentType)) && CleanEntry(codec, listed, "Body", x.body)
  }

  lemma EncodingIsClean(codec: Codec, listed: set<string>, encoding: string)
    requires Lawful(codec) && encoding in ["json", "text", "base64"]
    ensures CleanEntry(codec, listed, "BodyEncoding", Str(encoding)) <==> Lower("BodyEncoding") !in listed
  {
    hide Lawful, Lower, TextLen;
    assert encoding != REDACTED by {
      assert |REDACTED| == 10;
    }
    assert encoding[0] == 'j' || encoding[0] == 't' || encoding[0] == 'b';
    TrimKeepsHead(encoding);
  }

  /** A secret in a request body is redacted; the same body as a response shows it. */
  lemma SecretShowsInResponse(codec: Codec, headers: set<string>, fields: set<string>, call: Call, key: string, secret: string)
    requires Lawful(codec) && Lower(key) in fields && HasBody(call)
    requires call.body == Json.Obj(map[key := Str(secret)])
    requires call.response.value.payload.value.text == codec.write(call.body)
    ensures var r := RecordOf(codec, headers, fields, EntryOf(codec, call));
            && Reached(codec, r.requestBody, [Key(key)]) == Some(Str(REDACTED))
            && Reached(codec, r.responseBody, [Key("Body"), Key(key)]) == Some(Str(secret))
  {
    hide Lower, TextLen, Lawful, Decode, Inner;
    var r := RecordOf(codec, headers, fields, EntryOf(codec, call));
    ObjectDecoded(codec, call);
    OneHop(codec, r.requestBody, Key(key));
    OneHop(codec, call.body, Key(key));
    assert [Key("Body"), Key(key)][1..] == [Key(key)];
    assert HopTo(codec, r.responseBody, Key("Body")) == Some(call.body);
  }

  /** A response with the text of an object decodes to that object, whatever its type says. */
  lemma ObjectDecoded(codec: Codec, call: Call)
    requires Lawful(codec) && HasBody(call) && call.body.Obj? && Carried(codec, call.body)
    requires call.response.value.payload.value.text == codec.write(call.body)
    ensures ResponseStruct(codec, call).body == call.body
  {
    hide TextLen, TrimSpace, Contains, DefaultContentType, Lower;
    var text := codec.write(call.body);
    assert LooksLikeJson(text) && codec.parse(text) == Some(call.body);
    TrimSpaceFacts(text);
  }

  // ------------------------------------------------------------- decoding, by cases

  /** An empty body is an empty text. Otherwise what is announced as JSON, or looks like it, is
      read as JSON if it can be; the rest is kept as text, or in base 64 if it is no text. */
  lemma DecodingDecided(codec: Codec, contentType: string, p: Payload)
    ensures var x := Decode(codec, contentType, p);
            var tried := Occurs("json", ToLower(TrimSpace(contentType))) || LooksLikeJson(p.text);
            && x.Envelope?
            && (p.text == "" ==> x.bodyEncoding == "text" && x.body == Str(""))
            && (p.text != "" && tried && codec.parse(p.text).Some? ==> x.bodyEncoding == "json" && x.body == codec.parse(p.text).value)
            && (p.text != "" && (!tried || codec.parse(p.text).None?) ==>
                  x.bodyEncoding == (if p.isText then "text" else "base64") && x.body == Str(if p.isText then p.text else p.base64))
            && (!Blank(contentType) ==> x.contentType == TrimSpace(contentType))
            && (Blank(contentType) ==>
                  x.contentType == (if x.bodyEncoding == "json" then "application/json"
                                    else if x.bodyEncoding == "base64" then "application/octet-stream"
                                    else "text/plain; charset=utf-8"))
  {
    hide TrimSpace, ToLower, LooksLikeJson, Contains, Occurs;
    TrimSpaceFacts(contentType);
    TrimSpaceFacts(TrimSpace(contentType));
    ContainsMeans(ToLower(TrimSpace(contentType)), "json");
    assert |"json"| == 4 && |"text"| == 4 && |"base64"| == 6 && "json"[0] == 'j' && "text"[0] == 't';
  }
}
