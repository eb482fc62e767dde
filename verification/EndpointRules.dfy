/** The endpoint list by rules: which method comes before which, and what an entry holds. */
module EndpointRules {
  import opened Text
  import opened Json
  import opened Sorting
  import opened Endpoints

  lemma UpperPlain(s: string)
    requires s != "" && forall i :: 0 <= i < |s| ==> 'A' <= s[i] <= 'Z'
    ensures Upper(s) == s
  {
    assert TrimLeft(s) == s && TrimRight(s) == s;
    assert ToUpper(s) == s;
  }

  predicate Known(verb: string) {
    verb in ["GET", "POST", "PUT", "DELETE", "PATCH", "OPTIONS", "HEAD", "TRACE"]
  }

  /** The place of every method. */
  lemma Ranks()
    ensures Rank("GET") == 0 && Rank("POST") == 1 && Rank("PUT") == 2 && Rank("DELETE") == 3
    ensures Rank("PATCH") == 4 && Rank("OPTIONS") == 5 && Rank("HEAD") == 6 && Rank("TRACE") == 7
  {
    hide Upper;
    UpperPlain("GET");
    UpperPlain("POST");
    UpperPlain("PUT");
    UpperPlain("DELETE");
    UpperPlain("PATCH");
    UpperPlain("OPTIONS");
    UpperPlain("HEAD");
    UpperPlain("TRACE");
    PlacesOf();
  }

  lemma PlacesOf()
    ensures var at := (x: string) => IndexIn(METHOD_ORDER, x);
            && at("GET") == 0 && at("POST") == 1 && at("PUT") == 2 && at("DELETE") == 3
            && at("PATCH") == 4 && at("OPTIONS") == 5 && at("HEAD") == 6 && at("TRACE") == 7
  {
    assert METHOD_ORDER[1..] == ["POST", "PUT", "DELETE", "PATCH", "OPTIONS", "HEAD", "TRACE"];
    assert METHOD_ORDER[1..][1..] == ["PUT", "DELETE", "PATCH", "OPTIONS", "HEAD", "TRACE"];
    assert METHOD_ORDER[1..][1..][1..] == ["DELETE", "PATCH", "OPTIONS", "HEAD", "TRACE"];
    assert METHOD_ORDER[1..][1..][1..][1..] == ["PATCH", "OPTIONS", "HEAD", "TRACE"];
    assert METHOD_ORDER[1..][1..][1..][1..][1..] == ["OPTIONS", "HEAD", "TRACE"];
    assert METHOD_ORDER[1..][1..][1..][1..][1..][1..] == ["HEAD", "TRACE"];
    assert METHOD_ORDER[1..][1..][1..][1..][1..][1..][1..] == ["TRACE"];
    VerbsDiffer();
  }

  lemma VerbsDiffer()
    ensures "GET" !in ["POST", "PUT", "DELETE", "PATCH", "OPTIONS", "HEAD", "TRACE"]
    ensures "POST" !in ["PUT", "DELETE", "PATCH", "OPTIONS", "HEAD", "TRACE"]
    ensures "PUT" !in ["DELETE", "PATCH", "OPTIONS", "HEAD", "TRACE"] && "DELETE" !in ["PATCH", "OPTIONS", "HEAD", "TRACE"]
    ensures "PATCH" !in ["OPTIONS", "HEAD", "TRACE"] && "OPTIONS" !in ["HEAD", "TRACE"] && "HEAD" != "TRACE"
  {
    assert |"GET"| == 3 && |"POST"| == 4 && |"PUT"| == 3 && |"DELETE"| == 6 && |"PATCH"| == 5 && |"OPTIONS"| == 7;
    assert |"HEAD"| == 4 && |"TRACE"| == 5;
    assert "GET"[0] == 'G' && "PUT"[0] == 'P' && "POST"[0] == 'P' && "HEAD"[0] == 'H' && "PATCH"[0] == 'P' && "TRACE"[0] == 'T';
  }

  lemma {:induction false} NotInList(list: seq<string>, x: string)
    requires x !in list
    ensures IndexIn(list, x) == |list|
  {
    if list != [] {
      assert list[0] in list && x !in list[1..];
      NotInList(list[1..], x);
    }
  }

  /** Any other method comes after all of these. */
  lemma OthersLast(known: string, verb: string)
    requires Known(known) && !Known(Upper(verb))
    ensures VerbBefore(known, verb) && !VerbBefore(verb, known)
  {
    hide Upper, IndexIn;
    Ranks();
    NotInList(METHOD_ORDER, Upper(verb));
    assert |METHOD_ORDER| == 8;
    SortKeyOrder(known, verb);
    LessTotal(SortKey(known), SortKey(verb));
  }

  // ------------------------------------------------------------------- the entries

  /** Without braces, and with underscores for slashes. */
  function Flat(s: string): string {
    if s == "" then ""
    else (if s[0] == '/' then "_" else if s[0] == '{' || s[0] == '}' then "" else [s[0]]) + Flat(s[1..])
  }

  /** One character replaced or dropped everywhere. */
  function Replaced(s: string, from: char, to: string): string {
    if s == "" then "" else (if s[0] == from then to else [s[0]]) + Replaced(s[1..], from, to)
  }

  lemma {:induction false} ReplacedMeans(s: string, from: char, to: string)
    ensures ReplaceAll(s, [from], to) == Replaced(s, from, to)
  {
    if s != "" {
      ReplacedMeans(s[1..], from, to);
      assert [from] <= s <==> s[0] == from;
    }
  }

  lemma {:induction false} ReplacedAppend(a: string, b: string, from: char, to: string)
    ensures Replaced(a + b, from, to) == Replaced(a, from, to) + Replaced(b, from, to)
  {
    if a == "" {
      assert a + b == b;
    } else {
      assert (a + b)[0] == a[0] && (a + b)[1..] == a[1..] + b;
      ReplacedAppend(a[1..], b, from, to);
    }
  }

  lemma {:induction false} FlatMeans(s: string)
    ensures Replaced(Replaced(Replaced(s, '/', "_"), '{', ""), '}', "") == Flat(s)
  {
    if s != "" {
      FlatMeans(s[1..]);
      var head := if s[0] == '/' then "_" else [s[0]];
      ReplacedAppend(head, Replaced(s[1..], '/', "_"), '{', "");
      var head2 := Replaced(head, '{', "");
      ReplacedAppend(head2, Replaced(Replaced(s[1..], '/', "_"), '{', ""), '}', "");
      assert head[1..] == "";
      assert head2 == if s[0] == '{' then "" else head;
    }
  }

  predicate Slashes(s: string) {
    forall c :: c in s ==> c == '/'
  }

  /** Slashes are taken off both ends, and all of them. */
  lemma {:induction false} SlashesTrimmed(s: string) returns (before: string, after: string)
    ensures s == before + TrimSlashes(s) + after && Slashes(before) && Slashes(after)
    ensures TrimSlashes(s) != "" ==> TrimSlashes(s)[0] != '/' && TrimSlashes(s)[|TrimSlashes(s)| - 1] != '/'
    decreases |s|
  {
    before, after := "", "";
    if s != "" && s[0] == '/' {
      before, after := SlashesTrimmed(s[1..]);
      before := "/" + before;
      assert s == "/" + s[1..];
    } else if s != "" && s[|s| - 1] == '/' {
      before, after := SlashesTrimmed(s[..|s| - 1]);
      after := after + "/";
      assert s == s[..|s| - 1] + "/";
    }
  }

  /** The entry of an operation: its method in upper case, its path, its details, and its own
      id unless that is blank; then one made of the method and the path. */
  lemma EntryMeans(paths: Paths, path: string, verb: string)
    requires Declared(paths, path, verb)
    ensures var raw, e := paths[path].value[verb], Entry(paths, path, verb);
            && e.verb == ToUpper(verb) && e.path == path && e.details == raw.details
            && (!Blank(raw.id) ==> e.id == raw.id)
            && (Blank(raw.id) ==>
                  var flat := Flat(TrimSlashes(path));
                  e.id == ToLower(TrimSpace(verb)) + "_" + (if flat == "" then "root" else flat))
  {
    hide TrimSpace, ToLower, ToUpper, TrimSlashes, Flat;
    var raw, core := paths[path].value[verb], TrimSlashes(path);
    TrimSpaceFacts(raw.id);
    ReplacedMeans(core, '/', "_");
    ReplacedMeans(Replaced(core, '/', "_"), '{', "");
    ReplacedMeans(Replaced(Replaced(core, '/', "_"), '{', ""), '}', "");
    FlatMeans(core);
    assert "/" == ['/'] && "{" == ['{'] && "}" == ['}'];
  }
}
