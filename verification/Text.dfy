/** The string helpers of Go's standard library that the server leans on:
    white-space trimming, ASCII case folding, decimal numerals, splitting,
    replacing and byte-wise ordering. */
module Text {

  /** White space as `unicode.IsSpace` defines it. */
  predicate IsSpace(c: char) {
    '\t' <= c <= '\r' || c == ' ' || c == '\U{85}' || c == '\U{A0}' || c == '\U{1680}' ||
    '\U{2000}' <= c <= '\U{200A}' || c == '\U{2028}' || c == '\U{2029}' || c == '\U{202F}' ||
    c == '\U{205F}' || c == '\U{3000}'
  }

  /** The list, written out. */
  lemma SpacesListed(c: char)
    ensures IsSpace(c) <==> c in {
      '\t', '\n', '\U{B}', '\U{C}', '\r', ' ', '\U{85}', '\U{A0}', '\U{1680}', '\U{2000}', '\U{2001}', '\U{2002}', '\U{2003}',
      '\U{2004}', '\U{2005}', '\U{2006}', '\U{2007}', '\U{2008}', '\U{2009}', '\U{200A}', '\U{2028}', '\U{2029}', '\U{202F}',
      '\U{205F}', '\U{3000}'}
  {
  }

  function TrimLeft(s: string): string {
    if s != "" && IsSpace(s[0]) then TrimLeft(s[1..]) else s
  }

  function TrimRight(s: string): string {
    if s != "" && IsSpace(s[|s| - 1]) then TrimRight(s[..|s| - 1]) else s
  }

  /** `strings.TrimSpace`. */
  function TrimSpace(s: string): string {
    TrimRight(TrimLeft(s))
  }

  ghost predicate Blank(s: string) {
    forall c :: c in s ==> IsSpace(c)
  }

  lemma {:induction false} TrimLeftFacts(s: string)
    ensures Blank(s) <==> TrimLeft(s) == ""
    ensures TrimLeft(s) != "" ==> !IsSpace(TrimLeft(s)[0])
    ensures |TrimLeft(s)| <= |s| && TrimLeft(s) == s[|s| - |TrimLeft(s)|..]
  {
    if s != "" && IsSpace(s[0]) {
      TrimLeftFacts(s[1..]);
      assert s == [s[0]] + s[1..];
    } else if s != "" {
      assert s[0] in s;
    }
  }

  lemma {:induction false} TrimRightFacts(s: string)
    ensures Blank(s) <==> TrimRight(s) == ""
    ensures TrimRight(s) != "" ==> !IsSpace(TrimRight(s)[|TrimRight(s)| - 1])
    ensures TrimRight(s) <= s
  {
    if s != "" && IsSpace(s[|s| - 1]) {
      TrimRightFacts(s[..|s| - 1]);
      assert s == s[..|s| - 1] + [s[|s| - 1]];
    } else if s != "" {
      assert s[|s| - 1] in s;
    }
  }

  /** A string trims to nothing exactly when it is all white space, and
      trimming twice is trimming once. */
  lemma TrimSpaceFacts(s: string)
    ensures Blank(s) <==> TrimSpace(s) == ""
    ensures TrimSpace(TrimSpace(s)) == TrimSpace(s)
  {
    var l := TrimLeft(s);
    TrimLeftFacts(s);
    TrimRightFacts(l);
    if l != "" {
      assert l[0] in l;
      assert TrimSpace(s)[0] == l[0];
    }
  }

  /** Trimming keeps a first character that is no space. */
  lemma TrimKeepsHead(s: string)
    requires s != "" && !IsSpace(s[0])
    ensures TrimSpace(s) != "" && TrimSpace(s)[0] == s[0]
  {
    assert TrimLeft(s) == s;
    TrimRightFacts(s);
    TrimSpaceFacts(s);
    assert s[0] in s;
  }

  /** A string with some visible character survives trimming. */
  lemma VisibleSurvives(s: string, i: nat)
    requires i < |s| && !IsSpace(s[i])
    ensures TrimSpace(s) != ""
  {
    assert s[i] in s;
    TrimSpaceFacts(s);
  }

  /** Trimming takes white space off both ends, and all of it. */
  lemma TrimSpaceExactly(s: string) returns (before: string, after: string)
    ensures s == before + TrimSpace(s) + after && Blank(before) && Blank(after)
    ensures TrimSpace(s) != "" ==> !IsSpace(TrimSpace(s)[0]) && !IsSpace(TrimSpace(s)[|TrimSpace(s)| - 1])
  {
    hide TrimLeft, TrimRight, IsSpace, Blank;
    var l := TrimLeft(s);
    var t := TrimRight(l);
    LeftIsBlank(s);
    RightIsBlank(l);
    TrimLeftFacts(s);
    TrimRightFacts(l);
    before, after := s[..|s| - |l|], l[|t|..];
    assert s == before + l && l == t + after;
    if t != "" {
      assert t[0] == l[0];
    }
  }

  lemma {:induction false} LeftIsBlank(s: string)
    ensures |TrimLeft(s)| <= |s| && Blank(s[..|s| - |TrimLeft(s)|])
  {
    if s != "" && IsSpace(s[0]) {
      LeftIsBlank(s[1..]);
      TrimLeftFacts(s);
      assert s[..|s| - |TrimLeft(s)|] == [s[0]] + s[1..][..|s| - 1 - |TrimLeft(s)|];
    }
  }

  lemma {:induction false} RightIsBlank(s: string)
    ensures |TrimRight(s)| <= |s| && Blank(s[|TrimRight(s)|..])
  {
    if s != "" && IsSpace(s[|s| - 1]) {
      RightIsBlank(s[..|s| - 1]);
      TrimRightFacts(s);
      assert s[|TrimRight(s)|..] == s[..|s| - 1][|TrimRight(s)|..] + [s[|s| - 1]];
    }
  }

  /** The letters and their cases; everything else has none. */
  lemma LettersChangeCase(i: nat)
    requires i < 26
    ensures LowerChar("ABCDEFGHIJKLMNOPQRSTUVWXYZ"[i]) == "abcdefghijklmnopqrstuvwxyz"[i]
    ensures UpperChar("abcdefghijklmnopqrstuvwxyz"[i]) == "ABCDEFGHIJKLMNOPQRSTUVWXYZ"[i]
  {
  }

  lemma OthersHaveNoCase(c: char)
    ensures c !in "ABCDEFGHIJKLMNOPQRSTUVWXYZ" ==> LowerChar(c) == c
    ensures c !in "abcdefghijklmnopqrstuvwxyz" ==> UpperChar(c) == c
  {
    if 'A' <= c <= 'Z' {
      assert "ABCDEFGHIJKLMNOPQRSTUVWXYZ"[(c - 'A') as int] == c;
    }
    if 'a' <= c <= 'z' {
      assert "abcdefghijklmnopqrstuvwxyz"[(c - 'a') as int] == c;
    }
  }

  function LowerChar(c: char): char {
    if 'A' <= c <= 'Z' then c + ('a' - 'A') else c
  }

  function UpperChar(c: char): char {
    if 'a' <= c <= 'z' then c - ('a' - 'A') else c
  }

  /** `strings.ToLower`, on ASCII letters. */
  function ToLower(s: string): string {
    seq(|s|, i requires 0 <= i < |s| => LowerChar(s[i]))
  }

  /** `strings.ToUpper`, on ASCII letters. */
  function ToUpper(s: string): string {
    seq(|s|, i requires 0 <= i < |s| => UpperChar(s[i]))
  }

  /** Trimmed and in upper case. */
  function Upper(s: string): string {
    ToUpper(TrimSpace(s))
  }

  /** Trimmed and in lower case. */
  function Lower(s: string): string {
    ToLower(TrimSpace(s))
  }

  lemma UpperTwice(s: string)
    ensures Upper(Upper(s)) == Upper(s) && TrimSpace(Upper(s)) == Upper(s)
    ensures Upper(s) == "" <==> TrimSpace(s) == ""
  {
    var t := TrimSpace(s);
    TrimSpaceFacts(s);
    if t != "" {
      TrimmedUpper(t);
    }
    assert ToUpper(ToUpper(t)) == ToUpper(t);
  }

  /** Upper case neither makes nor removes spaces. */
  lemma TrimmedUpper(t: string)
    requires t != "" && TrimSpace(t) == t
    ensures TrimSpace(ToUpper(t)) == ToUpper(t)
  {
    TrimEnds(t);
    var u := ToUpper(t);
    assert !IsSpace(u[0]) && !IsSpace(u[|u| - 1]);
    assert TrimLeft(u) == u && TrimRight(u) == u;
  }

  lemma TrimEnds(t: string)
    requires t != "" && TrimSpace(t) == t
    ensures !IsSpace(t[0]) && !IsSpace(t[|t| - 1])
  {
    TrimLeftFacts(t);
    TrimRightFacts(TrimLeft(t));
    assert |TrimRight(TrimLeft(t))| <= |TrimLeft(t)| <= |t|;
    assert TrimLeft(t) == t;
  }

  predicate HasPrefix(s: string, prefix: string) {
    prefix <= s
  }

  function TrimPrefix(s: string, prefix: string): string {
    if prefix <= s then s[|prefix|..] else s
  }

  // ---------------------------------------------------------------- numerals

  function Digit(n: nat): char
    requires n < 10
  {
    ['0', '1', '2', '3', '4', '5', '6', '7', '8', '9'][n]
  }

  predicate IsDigit(c: char) {
    '0' <= c <= '9'
  }

  function DigitValue(c: char): nat
    requires IsDigit(c)
  {
    (c - '0') as int
  }

  /** `strconv.Itoa` on a non-negative number. */
  function Itoa(n: nat): string
    ensures Itoa(n) != "" && forall c :: c in Itoa(n) ==> IsDigit(c)
  {
    if n < 10 then [Digit(n)] else Itoa(n / 10) + [Digit(n % 10)]
  }

  function Decimal(s: string): nat
    requires forall c :: c in s ==> IsDigit(c)
  {
    if s == "" then 0 else Decimal(s[..|s| - 1]) * 10 + DigitValue(s[|s| - 1])
  }

  datatype Option<+T> = None | Some(value: T)

  /** `strconv.Atoi`: an optional sign and at least one digit. */
  function Atoi(s: string): Option<int> {
    var digits := if s != "" && (s[0] == '-' || s[0] == '+') then s[1..] else s;
    if digits == "" || exists c :: c in digits && !IsDigit(c) then None
    else
      var magnitude: int := Decimal(digits);
      Some(if s[0] == '-' then -magnitude else magnitude)
  }

  lemma {:induction false} DecimalItoa(n: nat)
    ensures Decimal(Itoa(n)) == n
  {
    if n >= 10 {
      DecimalItoa(n / 10);
      assert Itoa(n)[..|Itoa(n)| - 1] == Itoa(n / 10);
    }
  }

  lemma AtoiItoa(n: nat)
    ensures Atoi(Itoa(n)) == Some(n)
  {
    DecimalItoa(n);
    assert Itoa(n)[0] in Itoa(n);
  }

  /** A sign, if any, and at least one digit, and nothing else. */
  lemma AtoiExactly(s: string)
    ensures Atoi(s).Some? <==>
            var digits := if s != "" && s[0] in {'-', '+'} then s[1..] else s;
            digits != "" && forall c :: c in digits ==> c in "0123456789"
  {
    forall c ensures c in "0123456789" <==> IsDigit(c) {
      if IsDigit(c) {
        assert "0123456789"[DigitValue(c)] == c;
      }
    }
  }

  lemma AtoiSigned(n: nat)
    ensures Atoi("-" + Itoa(n)).Some? && Atoi("-" + Itoa(n)).value + n == 0
    ensures Atoi("+" + Itoa(n)).Some? && Atoi("+" + Itoa(n)).value == n
  {
    hide Decimal, Itoa;
    DecimalItoa(n);
    assert ("-" + Itoa(n))[1..] == Itoa(n) && ("+" + Itoa(n))[1..] == Itoa(n);
  }

  // ------------------------------------------------------- split, join, replace

  /** `strings.Index`. */
  function IndexOf(s: string, part: string): (at: Option<nat>)
    ensures at.Some? ==> at.value + |part| <= |s| && s[at.value..at.value + |part|] == part
  {
    if part <= s then Some(0)
    else if s == "" then None
    else
      var i := IndexOf(s[1..], part);
      if i.Some? then Some(i.value + 1) else None
  }

  /** `strings.Contains`. */
  predicate Contains(s: string, part: string) {
    IndexOf(s, part).Some?
  }

  predicate OccursAt(part: string, s: string, i: int) {
    0 <= i <= |s| - |part| && s[i..i + |part|] == part
  }

  /** The text occurs somewhere. */
  ghost predicate Occurs(part: string, s: string) {
    exists i :: OccursAt(part, s, i)
  }

  lemma NotAtStart(s: string, part: string)
    requires !(part <= s)
    ensures !OccursAt(part, s, 0)
  {
    if |part| <= |s| {
      assert s[0..|part|] == s[..|part|];
    }
  }

  lemma {:induction false} ContainsMeans(s: string, part: string)
    ensures Contains(s, part) <==> Occurs(part, s)
  {
    if part <= s {
      assert OccursAt(part, s, 0);
    } else if s != "" {
      ContainsMeans(s[1..], part);
      if i :| OccursAt(part, s[1..], i) {
        assert s[1..][i..i + |part|] == s[i + 1..i + 1 + |part|];
        assert OccursAt(part, s, i + 1);
      }
      NotAtStart(s, part);
      if i :| OccursAt(part, s, i) {
        assert s[1..][i - 1..i - 1 + |part|] == s[i..i + |part|];
        assert OccursAt(part, s[1..], i - 1);
      }
    } else {
      assert forall i :: !OccursAt(part, s, i);
    }
  }

  /** The index is that of the first occurrence. */
  lemma {:induction false} IndexIsFirst(s: string, part: string)
    ensures IndexOf(s, part).Some? ==> forall j :: OccursAt(part, s, j) ==> IndexOf(s, part).value <= j
  {
    if !(part <= s) && s != "" && IndexOf(s, part).Some? {
      IndexIsFirst(s[1..], part);
      NotAtStart(s, part);
      forall j | OccursAt(part, s, j) ensures IndexOf(s, part).value <= j {
        assert s[1..][j - 1..j - 1 + |part|] == s[j..j + |part|];
        assert OccursAt(part, s[1..], j - 1);
      }
    }
  }

  /** `strings.Split` on a one-character separator. */
  function Split(s: string, sep: char): (parts: seq<string>)
    ensures |parts| > 0
  {
    if s == "" then [""]
    else
      var rest := Split(s[1..], sep);
      if s[0] == sep then [""] + rest else [[s[0]] + rest[0]] + rest[1..]
  }

  function Join(parts: seq<string>, sep: char): string {
    if |parts| == 0 then ""
    else if |parts| == 1 then parts[0]
    else parts[0] + [sep] + Join(parts[1..], sep)
  }

  lemma {:induction false} SplitPlain(s: string, sep: char)
    requires sep !in s
    ensures Split(s, sep) == [s]
  {
    if s != "" {
      assert s[0] in s;
      assert sep !in s[1..];
      SplitPlain(s[1..], sep);
      assert s == [s[0]] + s[1..];
    }
  }

  lemma {:induction false} SplitHead(head: string, tail: string, sep: char)
    requires sep !in head
    ensures Split(head + [sep] + tail, sep) == [head] + Split(tail, sep)
  {
    var s := head + [sep] + tail;
    if head == "" {
      assert s == [sep] + tail;
      assert s[1..] == tail;
    } else {
      assert head[0] in head;
      SplitHead(head[1..], tail, sep);
      assert s[1..] == head[1..] + [sep] + tail;
      assert head == [head[0]] + head[1..];
    }
  }

  /** Splitting undoes joining when no part contains the separator. */
  lemma {:induction false} SplitJoin(parts: seq<string>, sep: char)
    requires |parts| > 0
    requires forall p :: p in parts ==> sep !in p
    ensures Split(Join(parts, sep), sep) == parts
  {
    if |parts| == 1 {
      SplitPlain(parts[0], sep);
    } else {
      SplitHead(parts[0], Join(parts[1..], sep), sep);
      SplitJoin(parts[1..], sep);
    }
  }

  /** `strings.ReplaceAll`: non-overlapping occurrences, left to right. */
  function ReplaceAll(s: string, from: string, to: string): string
    requires from != ""
  {
    if s == "" then ""
    else if from <= s then to + ReplaceAll(s[|from|..], from, to)
    else [s[0]] + ReplaceAll(s[1..], from, to)
  }

  // ------------------------------------------------------------------ ordering

  /** Go's `<` on strings. */
  predicate Less(a: string, b: string) {
    b != "" && (a == "" || a[0] < b[0] || (a[0] == b[0] && Less(a[1..], b[1..])))
  }

  lemma {:induction false} LessTotal(a: string, b: string)
    ensures Less(a, b) || Less(b, a) || a == b
    ensures !(Less(a, b) && Less(b, a)) && !Less(a, a)
  {
    if a != "" {
      LessTotal(a[1..], a[1..]);
      if b != "" {
        LessTotal(a[1..], b[1..]);
        assert a == [a[0]] + a[1..] && b == [b[0]] + b[1..];
      }
    }
  }

  lemma {:induction false} LessTransitive(a: string, b: string, c: string)
    requires Less(a, b) && Less(b, c)
    ensures Less(a, c)
  {
    if a != "" && a[0] == b[0] == c[0] {
      LessTransitive(a[1..], b[1..], c[1..]);
    }
  }

  ghost predicate Sorted(keys: seq<string>) {
    forall i, j :: 0 <= i < j < |keys| ==> Less(keys[i], keys[j])
  }

  ghost function Elements(keys: seq<string>): set<string> {
    set k | k in keys
  }

  /** `sort.Strings` over the keys of a map: the strictly sorted listing of the set. */
  function SortedKeys(keys: set<string>): (listing: seq<string>)
    ensures Sorted(listing) && Elements(listing) == keys
    ensures forall k :: k in listing <==> k in keys
  {
    if keys == {} then []
    else
      LeastExists(keys);
      LeastUnique(keys);
      var k :| IsLeast(k, keys);
      var rest := SortedKeys(keys - {k});
      assert forall o :: o in rest ==> o in Elements(rest);
      assert Elements([k] + rest) == {k} + Elements(rest);
      [k] + rest
  }

  predicate IsLeast(k: string, keys: set<string>) {
    k in keys && forall o :: o in keys && o != k ==> Less(k, o)
  }

  lemma LeastUnique(keys: set<string>)
    ensures forall a, b :: IsLeast(a, keys) && IsLeast(b, keys) ==> a == b
  {
    forall a, b | IsLeast(a, keys) && IsLeast(b, keys) ensures a == b {
      LessTotal(a, b);
    }
  }

  lemma {:induction false} LeastExists(keys: set<string>)
    requires keys != {}
    ensures exists k :: IsLeast(k, keys)
  {
    var x :| x in keys;
    var rest := keys - {x};
    if rest == {} {
      assert forall o :: o in keys ==> o == x || o in rest;
      assert IsLeast(x, keys);
    } else {
      LeastExists(rest);
      var k :| IsLeast(k, rest);
      LessTotal(x, k);
      if Less(x, k) {
        forall o | o in keys && o != x ensures Less(x, o) {
          if o != k {
            LessTransitive(x, k, o);
          }
        }
        assert IsLeast(x, keys);
      } else {
        assert IsLeast(k, keys);
      }
    }
  }

  // ----------------------------------------------------------- configured lists

  /** Some entry of the list, cleaned up by `normal`, is this non-empty text. */
  predicate Lists(values: seq<string>, normal: string -> string, x: string) {
    x != "" && exists i :: 0 <= i < |values| && normal(values[i]) == x
  }

  function CleanedSet(values: seq<string>, normal: string -> string): (out: set<string>)
    ensures forall x :: x in out <==> Lists(values, normal, x)
  {
    set i | 0 <= i < |values| && normal(values[i]) != "" :: normal(values[i])
  }

  /** `toUpperSet` and `toExactSet`: the loop over the configured values. */
  method CollectSet(values: seq<string>, normal: string -> string) returns (out: set<string>)
    ensures out == CleanedSet(values, normal)
  {
    out := {};
    for i := 0 to |values|
      invariant out == CleanedSet(values[..i], normal)
    {
      assert values[..i + 1][..i] == values[..i];
      var item := normal(values[i]);
      if item != "" {
        out := out + {item};
      }
    }
    assert values[..|values|] == values;
  }

  lemma ListsMore(values: seq<string>, more: seq<string>, normal: string -> string)
    ensures CleanedSet(values, normal) <= CleanedSet(values + more, normal)
  {
    forall x | x in CleanedSet(values, normal) ensures Lists(values + more, normal, x) {
      var i :| 0 <= i < |values| && normal(values[i]) == x;
      assert normal((values + more)[i]) == x;
    }
  }
}
