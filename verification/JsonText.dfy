/** JSON text that meets what redaction asks of it: a writer in the notation of JSON, whose
    texts can be read in one way only, and the reader that undoes it. */
module JsonText {
  import opened Text
  import opened Json
  import opened Redaction

  predicate Whole(n: real) {
    n == n.Floor as real
  }

  function Sign(n: int): string {
    if n < 0 then "-" else ""
  }

  function Magnitude(n: int): nat {
    if n < 0 then -n else n
  }

  function Integer(n: int): string {
    Sign(n) + Itoa(Magnitude(n))
  }

  predicate NeedsEscape(c: char) {
    c == '"' || c == '\\'
  }

  function Symbol(c: char): string {
    if NeedsEscape(c) then ['\\', c] else [c]
  }

  function Escaped(s: string): string {
    if s == "" then "" else Symbol(s[0]) + Escaped(s[1..])
  }

  function Quoted(s: string): string {
    ['"'] + Escaped(s) + ['"']
  }

  ghost function Write(v: Json): string
    decreases v, 1, 0
  {
    match v
    case Null => "null"
    case Bool(b) => if b then "true" else "false"
    case Num(n) => Integer(n.Floor)
    case Str(s) => Quoted(s)
    case Arr(_) => "[" + WriteItems(v, 0)
    case Obj(m) => "{" + WriteFields(v, SortedKeys(m.Keys), 0)
    case Strs(_) => ""
  }

  function Comma(i: nat): string {
    if i == 0 then "" else ","
  }

  /** The items from number `i` on, and the closing bracket. */
  ghost function WriteItems(v: Json, i: nat): string
    requires v.Arr? && i <= |v.items|
    decreases v, 0, |v.items| - i
  {
    if i == |v.items| then "]" else Comma(i) + Write(v.items[i]) + WriteItems(v, i + 1)
  }

  ghost predicate KeysOf(v: Json, keys: seq<string>) {
    v.Obj? && forall k :: k in keys ==> k in v.fields
  }

  /** The fields from number `i` on, and the closing brace. */
  ghost function WriteFields(v: Json, keys: seq<string>, i: nat): string
    requires KeysOf(v, keys) && i <= |keys|
    decreases v, 0, |keys| - i
  {
    if i == |keys| then "}"
    else Comma(i) + Quoted(keys[i]) + ":" + Write(v.fields[keys[i]]) + WriteFields(v, keys, i + 1)
  }

  /** What this notation can carry. */
  ghost predicate Writable(v: Json) {
    match v
    case Num(n) => Whole(n)
    case Arr(items) => forall i :: 0 <= i < |items| ==> Writable(items[i])
    case Obj(m) => forall k :: k in m ==> Writable(m[k])
    case Strs(_) => false
    case _ => true
  }

  ghost predicate Writes(v: Json, s: string) {
    Writable(v) && Write(v) == s
  }

  /** The value that is written so, if any. */
  ghost function Read(s: string): Option<Json> {
    if exists v :: Writes(v, s) then
      var v :| Writes(v, s);
      Some(v)
    else None
  }

  ghost function TextCodec(): Codec {
    Codec(v => Write(v), s => Read(s), n => Whole(n))
  }

  // -------------------------------------------------------- one way to read a text

  /** What follows a number does not prolong it. */
  predicate Ends(rest: string) {
    rest == "" || !IsDigit(rest[0])
  }

  /** Digits that end earlier are followed by a digit. */
  lemma DigitsGoOn(s: string, t: string, r: string, q: string)
    requires s + r == t + q && |s| < |t| && forall c :: c in t ==> IsDigit(c)
    ensures r != "" && IsDigit(r[0])
  {
    assert |s + r| == |t + q|;
    assert (s + r)[|s|] == r[0] && (t + q)[|s|] == t[|s|];
    assert t[|s|] in t;
  }

  lemma DigitsUnique(a: nat, b: nat, r: string, q: string)
    requires Itoa(a) + r == Itoa(b) + q && Ends(r) && Ends(q)
    ensures a == b && r == q
  {
    hide Itoa;
    var s, t := Itoa(a), Itoa(b);
    assert |s| == |t| by {
      if |s| < |t| {
        DigitsGoOn(s, t, r, q);
      }
      if |t| < |s| {
        DigitsGoOn(t, s, q, r);
      }
    }
    assert (s + r)[..|s|] == s && (t + q)[..|t|] == t;
    assert (s + r)[|s|..] == r && (t + q)[|t|..] == q;
    DecimalItoa(a);
    DecimalItoa(b);
  }

  lemma IntegersUnique(a: int, b: int, r: string, q: string)
    requires Integer(a) + r == Integer(b) + q && Ends(r) && Ends(q)
    ensures a == b && r == q
  {
    hide Itoa, Integer, Sign, Ends;
    SignedHead(a, r);
    SignedHead(b, q);
    Prefixed(Sign(a), Itoa(Magnitude(a)) + r, Itoa(Magnitude(b)) + q);
    DigitsUnique(Magnitude(a), Magnitude(b), r, q);
  }

  lemma SignedHead(n: int, r: string)
    ensures var whole := Integer(n) + r;
            && whole == Sign(n) + (Itoa(Magnitude(n)) + r) && whole != "" && (whole[0] == '-' <==> n < 0)
    ensures Sign(n) == if n < 0 then "-" else ""
  {
    hide Itoa;
    assert Itoa(Magnitude(n))[0] in Itoa(Magnitude(n));
  }

  lemma IntegerHead(n: int)
    ensures Integer(n) != "" && (if n < 0 then Integer(n)[0] == '-' else IsDigit(Integer(n)[0]))
  {
    hide Itoa;
    assert Itoa(Magnitude(n))[0] in Itoa(Magnitude(n));
  }

  lemma SymbolUnique(c: char, d: char, r: string, q: string)
    requires Symbol(c) + r == Symbol(d) + q
    ensures c == d && r == q
  {
    var left, right := Symbol(c) + r, Symbol(d) + q;
    assert left[0] == Symbol(c)[0] && right[0] == Symbol(d)[0];
    if NeedsEscape(c) && NeedsEscape(d) {
      assert left[1] == c && right[1] == d;
    }
    Prefixed(Symbol(c), r, q);
  }

  lemma Prefixed(p: string, s: string, t: string)
    requires p + s == p + t
    ensures s == t
  {
    assert (p + s)[|p|..] == s && (p + t)[|p|..] == t;
  }

  /** An escaped text, its closing quote, and what follows. */
  function Closed(s: string, r: string): string {
    Escaped(s) + (['"'] + r)
  }

  lemma ClosedStep(s: string, r: string)
    ensures Closed(s, r) == if s == "" then ['"'] + r else Symbol(s[0]) + Closed(s[1..], r)
    ensures Closed(s, r) != "" && (Closed(s, r)[0] == '"' <==> s == "")
  {
    hide Escaped, Symbol;
    EscapedStep(s);
  }

  lemma EscapedStep(s: string)
    ensures Escaped(s) == if s == "" then "" else Symbol(s[0]) + Escaped(s[1..])
    ensures s != "" ==> Symbol(s[0]) != "" && Symbol(s[0])[0] != '"'
  {
  }

  lemma {:induction false} ClosedUnique(s: string, t: string, r: string, q: string)
    requires Closed(s, r) == Closed(t, q)
    ensures s == t && r == q
    decreases |s|
  {
    hide Closed, Symbol;
    ClosedStep(s, r);
    ClosedStep(t, q);
    if s == "" {
      Prefixed(['"'], r, q);
    } else {
      SymbolUnique(s[0], t[0], Closed(s[1..], r), Closed(t[1..], q));
      ClosedUnique(s[1..], t[1..], r, q);
      assert s == [s[0]] + s[1..] && t == [t[0]] + t[1..];
    }
  }

  lemma QuotedUnique(s: string, t: string, r: string, q: string)
    requires Quoted(s) + r == Quoted(t) + q
    ensures s == t && r == q
  {
    hide Escaped;
    assert Quoted(s) + r == ['"'] + Closed(s, r) && Quoted(t) + q == ['"'] + Closed(t, q);
    Prefixed(['"'], Closed(s, r), Closed(t, q));
    ClosedUnique(s, t, r, q);
  }

  /** The first character tells the kind of value. */
  predicate Begins(v: Json, c: char) {
    match v
    case Null => c == 'n'
    case Bool(b) => c == if b then 't' else 'f'
    case Num(_) => c == '-' || IsDigit(c)
    case Str(_) => c == '"'
    case Arr(_) => c == '['
    case Obj(_) => c == '{'
    case Strs(_) => false
  }

  lemma WrittenHead(v: Json)
    requires Writable(v)
    ensures Write(v) != "" && Begins(v, Write(v)[0])
  {
    hide Itoa, Escaped, WriteItems, WriteFields, SortedKeys;
    if v.Num? {
      IntegerHead(v.n.Floor);
    }
  }

  /** Two texts of values that go on differently or alike begin with the same value. */
  lemma {:induction false} WrittenUnique(v: Json, w: Json, r: string, q: string)
    requires Writable(v) && Writable(w) && Write(v) + r == Write(w) + q && Ends(r) && Ends(q)
    ensures v == w && r == q
    decreases v, 1, 0
  {
    hide Itoa, Escaped, Integer, Quoted, WriteItems, WriteFields, SortedKeys;
    WrittenHead(v);
    WrittenHead(w);
    assert (Write(v) + r)[0] == Write(v)[0] && (Write(w) + q)[0] == Write(w)[0];
    match v
    case Null => Prefixed("null", r, q);
    case Bool(b) => Prefixed(Write(v), r, q);
    case Num(n) => IntegersUnique(n.Floor, w.n.Floor, r, q);
    case Str(s) => QuotedUnique(s, w.s, r, q);
    case Arr(_) =>
      assert Write(v) + r == "[" + (WriteItems(v, 0) + r) && Write(w) + q == "[" + (WriteItems(w, 0) + q);
      Prefixed("[", WriteItems(v, 0) + r, WriteItems(w, 0) + q);
      ItemsUnique(v, w, 0, r, q);
    case Obj(m) =>
      var keys, others := SortedKeys(m.Keys), SortedKeys(w.fields.Keys);
      assert Write(v) + r == "{" + (WriteFields(v, keys, 0) + r) && Write(w) + q == "{" + (WriteFields(w, others, 0) + q);
      Prefixed("{", WriteFields(v, keys, 0) + r, WriteFields(w, others, 0) + q);
      FieldsUnique(v, w, keys, others, 0, r, q);
      SameFields(m, w.fields);
    case Strs(_) =>
  }

  lemma SameFields(m: Fields, other: Fields)
    requires SortedKeys(m.Keys) == SortedKeys(other.Keys)
    requires forall k :: k in SortedKeys(m.Keys) ==> k in m && k in other && m[k] == other[k]
    ensures m == other
  {
    var keys := SortedKeys(m.Keys);
    var others := SortedKeys(other.Keys);
    assert m.Keys == Elements(keys) == Elements(others) == other.Keys;
    forall k | k in m ensures m[k] == other[k] {
      assert k in keys;
    }
  }

  lemma {:induction false} ItemsUnique(v: Json, w: Json, i: nat, r: string, q: string)
    requires v.Arr? && w.Arr? && Writable(v) && Writable(w) && i <= |v.items| && i <= |w.items|
    requires v.items[..i] == w.items[..i] && WriteItems(v, i) + r == WriteItems(w, i) + q
    ensures v.items == w.items && r == q
    decreases v, 0, |v.items| - i
  {
    hide Itoa, Escaped, Integer, Quoted, WriteFields, SortedKeys, Write, WriteItems, Comma;
    ItemsHead(v, i, r);
    ItemsHead(w, i, q);
    if i == |v.items| {
      ListEnds(v, r);
      ListEnds(w, q);
      Prefixed("]", r, q);
    } else {
      var restV, restW := WriteItems(v, i + 1) + r, WriteItems(w, i + 1) + q;
      ItemStep(v, i, r);
      ItemStep(w, i, q);
      Prefixed(Comma(i), Write(v.items[i]) + restV, Write(w.items[i]) + restW);
      ItemsHead(v, i + 1, r);
      ItemsHead(w, i + 1, q);
      WrittenUnique(v.items[i], w.items[i], restV, restW);
      ItemsUnique(v, w, i + 1, r, q);
    }
  }

  lemma ListEnds(v: Json, r: string)
    requires v.Arr?
    ensures WriteItems(v, |v.items|) + r == "]" + r
  {
  }

  lemma ItemStep(v: Json, i: nat, r: string)
    requires v.Arr? && i < |v.items|
    ensures WriteItems(v, i) + r == Comma(i) + (Write(v.items[i]) + (WriteItems(v, i + 1) + r))
  {
    hide Write;
  }

  /** The rest of a list begins with its end, with a comma, or with its first item. */
  lemma ItemsHead(v: Json, i: nat, r: string)
    requires v.Arr? && Writable(v) && i <= |v.items|
    ensures var whole := WriteItems(v, i) + r;
            && whole != "" && (whole[0] == ']' <==> i == |v.items|)
            && (i > 0 ==> Ends(whole))
            && (i == 0 < |v.items| ==> Begins(v.items[0], whole[0]))
  {
    hide Itoa, Escaped, Integer, Quoted, WriteFields, SortedKeys, Write;
    if i < |v.items| {
      WrittenHead(v.items[i]);
    }
  }

  lemma {:induction false} FieldsUnique(
    v: Json, w: Json, keys: seq<string>, others: seq<string>, i: nat, r: string, q: string)
    requires KeysOf(v, keys) && KeysOf(w, others) && Writable(v) && Writable(w)
    requires i <= |keys| && i <= |others| && keys[..i] == others[..i]
    requires forall j :: 0 <= j < i ==> v.fields[keys[j]] == w.fields[others[j]]
    requires WriteFields(v, keys, i) + r == WriteFields(w, others, i) + q
    ensures keys == others && r == q && forall j :: 0 <= j < |keys| ==> v.fields[keys[j]] == w.fields[keys[j]]
    decreases v, 0, |keys| - i
  {
    hide Itoa, Escaped, Integer, Quoted, WriteItems, SortedKeys, Write;
    FieldsHead(v, keys, i, r);
    FieldsHead(w, others, i, q);
    if i == |keys| {
      Prefixed("}", r, q);
    } else {
      var restV, restW := WriteFields(v, keys, i + 1) + r, WriteFields(w, others, i + 1) + q;
      FieldStep(v, keys, i, r);
      FieldStep(w, others, i, q);
      var textV, textW := Write(v.fields[keys[i]]) + restV, Write(w.fields[others[i]]) + restW;
      Prefixed(Comma(i), Quoted(keys[i]) + (":" + textV), Quoted(others[i]) + (":" + textW));
      QuotedUnique(keys[i], others[i], ":" + textV, ":" + textW);
      Prefixed(":", textV, textW);
      FieldsHead(v, keys, i + 1, r);
      FieldsHead(w, others, i + 1, q);
      WrittenUnique(v.fields[keys[i]], w.fields[others[i]], restV, restW);
      FieldsUnique(v, w, keys, others, i + 1, r, q);
    }
  }

  lemma FieldStep(v: Json, keys: seq<string>, i: nat, r: string)
    requires KeysOf(v, keys) && i < |keys|
    ensures WriteFields(v, keys, i) + r ==
            Comma(i) + (Quoted(keys[i]) + (":" + (Write(v.fields[keys[i]]) + (WriteFields(v, keys, i + 1) + r))))
  {
    hide Quoted, Write;
  }

  lemma FieldsHead(v: Json, keys: seq<string>, i: nat, r: string)
    requires KeysOf(v, keys) && i <= |keys|
    ensures var whole := WriteFields(v, keys, i) + r; whole != "" && (whole[0] == '}' <==> i == |keys|) && Ends(whole)
  {
    hide Escaped, Write;
  }

  // ------------------------------------------------------------------- the lengths

  lemma {:induction false} EscapedLength(s: string)
    ensures |Escaped(s)| >= |s|
  {
    if s != "" {
      EscapedLength(s[1..]);
    }
  }

  /** A text is longer than all the strings in its value together. */
  lemma {:induction false} WrittenLength(v: Json)
    requires Writable(v)
    ensures TextLen(v) < |Write(v)|
    decreases v, 1, 0
  {
    hide Itoa, Escaped, Integer, SortedKeys, WriteItems, WriteFields, ItemsLen, FieldsLen;
    WrittenHead(v);
    match v
    case Str(s) => EscapedLength(s);
    case Arr(items) =>
      NoLength(v, []);
      ItemsLength(v, 0);
    case Obj(m) =>
      NoLength(v, SortedKeys(m.Keys));
      FieldsLength(v, SortedKeys(m.Keys), 0);
    case _ =>
  }

  lemma NoLength(v: Json, keys: seq<string>)
    ensures v.Arr? ==> ItemsLen(v, 0) == 0
    ensures KeysOf(v, keys) ==> FieldsLen(v, keys[..0]) == 0 && keys[..|keys|] == keys
  {
  }

  lemma {:induction false} ItemsLength(v: Json, i: nat)
    requires v.Arr? && Writable(v) && i <= |v.items|
    ensures ItemsLen(v, i) + |WriteItems(v, i)| > ItemsLen(v, |v.items|)
    decreases v, 0, |v.items| - i
  {
    hide Write, TextLen;
    if i < |v.items| {
      WrittenLength(v.items[i]);
      ItemsLength(v, i + 1);
    }
  }

  lemma {:induction false} FieldsLength(v: Json, keys: seq<string>, i: nat)
    requires KeysOf(v, keys) && Writable(v) && i <= |keys|
    ensures FieldsLen(v, keys[..i]) + |WriteFields(v, keys, i)| > FieldsLen(v, keys[..|keys|])
    decreases v, 0, |keys| - i
  {
    hide Write, TextLen, Escaped;
    if i < |keys| {
      assert keys[..i + 1][..i] == keys[..i] && keys[..i + 1][i] == keys[i];
      WrittenLength(v.fields[keys[i]]);
      FieldsLength(v, keys, i + 1);
    }
  }

  // ----------------------------------------------------------------------- the laws

  lemma {:induction false} CarriedIsWritable(v: Json)
    ensures Carried(TextCodec(), v) <==> Writable(v)
  {
    match v
    case Arr(items) =>
      forall i | 0 <= i < |items| ensures Carried(TextCodec(), items[i]) <==> Writable(items[i]) {
        CarriedIsWritable(items[i]);
      }
    case Obj(m) =>
      forall k | k in m ensures Carried(TextCodec(), m[k]) <==> Writable(m[k]) {
        CarriedIsWritable(m[k]);
      }
    case _ =>
  }

  /** Reading undoes writing. */
  lemma ReadWritten(v: Json)
    requires Writable(v)
    ensures Read(Write(v)) == Some(v)
  {
    hide Write, Writable;
    assert Writes(v, Write(v));
    var w := Read(Write(v)).value;
    assert Writes(w, Write(v));
    assert Write(v) + "" == Write(w) + "";
    WrittenUnique(v, w, "", "");
  }

  /** A text looks like JSON exactly if its value is an object or a list. */
  lemma LooksLikeContainer(v: Json)
    requires Writable(v)
    ensures LooksLikeJson(Write(v)) <==> IsContainer(v)
  {
    hide Write, Writable;
    WrittenHead(v);
    TrimKeepsHead(Write(v));
  }

  /** "[REDACTED]" is no text of a value: nothing begins with an `R`. */
  lemma RedactedIsNoText(v: Json)
    requires Writable(v)
    ensures Write(v) != REDACTED
  {
    hide Itoa, Escaped, Integer, WriteFields, SortedKeys, WriteItems;
    WrittenHead(v);
    if v.Arr? {
      ItemsHead(v, 0, "");
      assert WriteItems(v, 0) + "" == WriteItems(v, 0);
      assert Write(v)[1] == WriteItems(v, 0)[0];
    }
  }

  /** There is JSON text that meets the laws. */
  lemma TextCodecIsLawful()
    ensures Lawful(TextCodec())
  {
    hide Write, Writable, Carried, TextLen, LooksLikeJson;
    var codec := TextCodec();
    forall v | Carried(codec, v)
      ensures codec.parse(codec.write(v)) == Some(v)
      ensures IsContainer(v) ==> LooksLikeJson(codec.write(v))
    {
      CarriedIsWritable(v);
      ReadWritten(v);
      LooksLikeContainer(v);
    }
    forall s | codec.parse(s).Some?
      ensures Carried(codec, codec.parse(s).value) && TextLen(codec.parse(s).value) < |s|
      ensures LooksLikeJson(s) ==> IsContainer(codec.parse(s).value)
    {
      var v := codec.parse(s).value;
      assert Writes(v, s);
      CarriedIsWritable(v);
      WrittenLength(v);
      LooksLikeContainer(v);
    }
    if codec.parse(REDACTED).Some? {
      assert Writes(codec.parse(REDACTED).value, REDACTED);
      RedactedIsNoText(codec.parse(REDACTED).value);
    }
  }
}
