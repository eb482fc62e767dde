/** JSON pointers into a parsed document: the lookup loop, and the round trip through
    the escaping of section 4 of RFC 6901. */
module Pointer {
  import opened Text
  import opened Json

  /** `decodePointerToken`: `~1` first, then `~0`. */
  function DecodeToken(token: string): string {
    ReplaceAll(ReplaceAll(token, "~1", "/"), "~0", "~")
  }

  /** The node below `node` that a decoded token names. */
  function Child(node: Json, token: string): Option<Json> {
    match node
    case Obj(m) => if token in m then Some(m[token]) else None
    case Arr(items) =>
      var idx := Atoi(token);
      if idx.Some? && 0 <= idx.value < |items| then Some(items[idx.value]) else None
    case _ => None
  }

  function Descend(node: Json, parts: seq<string>): Option<Json> {
    if parts == [] then Some(node)
    else
      var next := Child(node, DecodeToken(parts[0]));
      if next.Some? then Descend(next.value, parts[1..]) else None
  }

  function Lookup(root: Json, pointer: string): Option<Json> {
    if pointer == "" then Some(root) else Descend(root, Split(TrimPrefix(pointer, "/"), '/'))
  }

  /** `lookupPointer`: the loop that moves `current` down the document. */
  method LookupPointer(root: Json, pointer: string) returns (found: Option<Json>)
    ensures found == Lookup(root, pointer)
  {
    if pointer == "" {
      return Some(root);
    }
    var parts := Split(TrimPrefix(pointer, "/"), '/');
    var current := root;
    for i := 0 to |parts|
      invariant Descend(root, parts) == Descend(current, parts[i..])
    {
      var next := Child(current, DecodeToken(parts[i]));
      assert parts[i..][0] == parts[i] && parts[i..][1..] == parts[i + 1..];
      if next.None? {
        return None;
      }
      current := next.value;
    }
    return Some(current);
  }

  /** `referenceToPointer`: local references only. */
  function ReferenceToPointer(ref: string): Option<string> {
    var trimmed := TrimSpace(ref);
    if HasPrefix(trimmed, "#/") then Some(TrimPrefix(trimmed, "#")) else None
  }

  // ------------------------------------------------------------------ round trip

  /** One step of a path from the root to a node. */
  datatype Step = Key(key: string) | Index(index: nat)

  ghost function NodeAt(node: Json, path: seq<Step>): Option<Json> {
    if path == [] then Some(node)
    else
      match path[0]
      case Key(k) => if node.Obj? && k in node.fields then NodeAt(node.fields[k], path[1..]) else None
      case Index(i) => if node.Arr? && i < |node.items| then NodeAt(node.items[i], path[1..]) else None
  }

  /** Escapes `~` to `~0` and `/` to `~1`. */
  ghost function EncodeToken(token: string): string {
    if token == "" then ""
    else
      (if token[0] == '~' then "~0" else if token[0] == '/' then "~1" else [token[0]]) + EncodeToken(token[1..])
  }

  /** Escapes `~` only. */
  ghost function EncodeTilde(token: string): string {
    if token == "" then ""
    else (if token[0] == '~' then "~0" else [token[0]]) + EncodeTilde(token[1..])
  }

  ghost function StepToken(step: Step): string {
    match step
    case Key(k) => EncodeToken(k)
    case Index(i) => Itoa(i)
  }

  ghost function Tokens(path: seq<Step>): seq<string> {
    seq(|path|, i requires 0 <= i < |path| => StepToken(path[i]))
  }

  /** The pointer text of a path. */
  ghost function PointerTo(path: seq<Step>): string {
    "/" + Join(Tokens(path), '/')
  }

  lemma {:induction false} SlashesDecoded(token: string)
    ensures ReplaceAll(EncodeToken(token), "~1", "/") == EncodeTilde(token)
  {
    if token != "" {
      var rest := EncodeToken(token[1..]);
      var s := EncodeToken(token);
      SlashesDecoded(token[1..]);
      if token[0] == '~' {
        assert s[0] == '~' && s[1] == '0' && s[1..][1..] == rest;
        assert !("~1" <= s) && !("~1" <= s[1..]);
        assert ReplaceAll(s[1..], "~1", "/") == ['0'] + ReplaceAll(rest, "~1", "/");
      } else if token[0] == '/' {
        assert s == "~1" + rest && s[2..] == rest;
      } else {
        assert s[0] == token[0] && s[1..] == rest;
        assert !("~1" <= s);
      }
    }
  }

  lemma {:induction false} TildesDecoded(token: string)
    ensures ReplaceAll(EncodeTilde(token), "~0", "~") == token
  {
    if token != "" {
      var rest := EncodeTilde(token[1..]);
      var s := EncodeTilde(token);
      TildesDecoded(token[1..]);
      if token[0] == '~' {
        assert s == "~0" + rest && s[2..] == rest;
      } else {
        assert s[0] == token[0] && s[1..] == rest;
        assert !("~0" <= s);
      }
      assert token == [token[0]] + token[1..];
    }
  }

  /** Decoding undoes escaping on every token. */
  lemma DecodeEncode(token: string)
    ensures DecodeToken(EncodeToken(token)) == token
  {
    SlashesDecoded(token);
    TildesDecoded(token);
  }

  /** An escaped token holds no separator. */
  lemma {:induction false} EncodedPlain(token: string)
    ensures '/' !in EncodeToken(token)
  {
    if token != "" {
      EncodedPlain(token[1..]);
    }
  }

  /** Text without a tilde decodes to itself. */
  lemma {:induction false} NoTildeReplace(s: string, from: string, to: string)
    requires |from| > 0 && from[0] == '~' && '~' !in s
    ensures ReplaceAll(s, from, to) == s
  {
    if s != "" {
      assert s[0] in s;
      assert !(from <= s);
      assert '~' !in s[1..];
      NoTildeReplace(s[1..], from, to);
      assert s == [s[0]] + s[1..];
    }
  }

  /** As far as it leads, the path takes keys in objects and indices in lists. */
  ghost predicate Fitting(node: Json, path: seq<Step>)
    decreases path
  {
    path != [] ==>
      && (node.Obj? ==> path[0].Key?) && (node.Arr? ==> path[0].Index?)
      && (NodeAt(node, path[..1]).Some? ==> Fitting(NodeAt(node, path[..1]).value, path[1..]))
  }

  lemma {:induction false} DescendTokens(node: Json, path: seq<Step>)
    requires Fitting(node, path)
    ensures Descend(node, Tokens(path)) == NodeAt(node, path)
    decreases path
  {
    if path != [] {
      assert Tokens(path)[1..] == Tokens(path[1..]);
      assert path[..1][0] == path[0] && path[..1][1..] == [];
      StepDecoded(path[0]);
      if Child(node, DecodeToken(StepToken(path[0]))).Some? {
        assert NodeAt(node, path[..1]) == Child(node, DecodeToken(StepToken(path[0])));
        DescendTokens(NodeAt(node, path[..1]).value, path[1..]);
      }
    }
  }

  lemma StepDecoded(step: Step)
    ensures step.Key? ==> DecodeToken(StepToken(step)) == step.key
    ensures step.Index? ==> Atoi(DecodeToken(StepToken(step))) == Some(step.index)
  {
    match step
    case Key(k) => DecodeEncode(k);
    case Index(i) =>
      NoTildeReplace(Itoa(i), "~1", "/");
      NoTildeReplace(Itoa(i), "~0", "~");
      AtoiItoa(i);
  }

  /** Every nonempty path leads through its pointer exactly where it leads by itself: to a node,
      or nowhere. */
  lemma PointerLeadsThere(root: Json, path: seq<Step>)
    requires path != [] && Fitting(root, path)
    ensures Lookup(root, PointerTo(path)) == NodeAt(root, path)
  {
    var tokens := Tokens(path);
    assert TrimPrefix(PointerTo(path), "/") == Join(tokens, '/');
    forall t | t in tokens ensures '/' !in t {
      var i :| 0 <= i < |path| && t == StepToken(path[i]);
      if path[i].Key? {
        EncodedPlain(path[i].key);
      } else {
        assert forall c :: c in t ==> IsDigit(c);
      }
    }
    SplitJoin(tokens, '/');
    DescendTokens(root, path);
  }

  lemma {:induction false} NodesFit(node: Json, path: seq<Step>)
    requires NodeAt(node, path).Some?
    ensures Fitting(node, path)
  {
    if path != [] {
      assert path[..1][0] == path[0] && path[..1][1..] == [];
      match path[0]
      case Key(k) => NodesFit(node.fields[k], path[1..]);
      case Index(i) => NodesFit(node.items[i], path[1..]);
    }
  }

  /** Every nonempty path to a node leads back to exactly that node through its pointer. */
  lemma PointerRoundTrip(root: Json, path: seq<Step>)
    requires path != [] && NodeAt(root, path).Some?
    ensures Lookup(root, PointerTo(path)) == NodeAt(root, path)
  {
    NodesFit(root, path);
    PointerLeadsThere(root, path);
  }

  /** The order of the two replacements matters: an escaped tilde before a `1` must not
      turn into a slash. */
  lemma DecodeOrder()
    ensures DecodeToken("~01") == "~1"
    ensures ReplaceAll(ReplaceAll("~01", "~0", "~"), "~1", "/") == "/"
  {
    assert "~01"[1] == '0' && "~1"[1] == '1' && "~1"[0] == '~' && "01"[0] == '0';
    assert !("~1" <= "~01");
    assert !("~1" <= "01") && !("~1" <= "1");
    assert "~01"[1..] == "01" && "01"[1..] == "1" && "1"[1..] == "";
    assert ReplaceAll("~01", "~1", "/") == "~01";
    assert "~01"[2..] == "1" && !("~0" <= "1");
    assert ReplaceAll("~01", "~0", "~") == "~1";
    assert "~1"[2..] == "";
  }
}
