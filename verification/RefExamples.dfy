/** Two documents on which expansion does less than one would think. In both, the value that
    is expanded is a node of the document. */
module RefExamples {
  import opened Text
  import opened Json
  import opened Pointer
  import opened RefExpansion
  import opened RefResidue
  import opened RefUnfolding

  predicate PlainKey(key: string) {
    '/' !in key && '~' !in key
  }

  /** A key without escapes is found through its pointer. */
  lemma LookupKey(m: Fields, key: string)
    requires key in m && PlainKey(key)
    ensures Lookup(Json.Obj(m), "/" + key) == Some(m[key])
  {
    var pointer := "/" + key;
    assert pointer[0] == '/' && pointer[..1] == "/" && pointer[1..] == key;
    SplitPlain(key, '/');
    NoTildeReplace(key, "~1", "/");
    NoTildeReplace(key, "~0", "~");
    assert DecodeToken(key) == key && [key][1..] == [];
    assert TrimPrefix(pointer, "/") == key;
    assert Descend(Json.Obj(m), [key]) == Some(m[key]);
  }

  // ------------------------------------------------- a repeated, acyclic reference

  const TARGET := Json.Obj(map[])
  const AGAIN: Fields := map[REF := Str("#/a")]
  const TWICE: Fields := map[REF := Str("#/a"), "again" := Json.Obj(AGAIN)]
  const SHELF: Fields := map["a" := TARGET, "b" := Json.Obj(TWICE)]

  /** One rank for the one pointer in use: its target refers to nothing. */
  ghost function ShelfRanking(): Ranking {
    Ranking(Json.Obj(SHELF), _ => 0, {"/a"})
  }

  /** Ranking the targets alone is not enough for plain unfolding: in this document the only
      target refers to nothing, yet the reference repeated beside itself, which the document
      holds under `b`, comes out marked as circular. */
  lemma RepeatedSiblingDiffers()
    ensures var d, v := ShelfRanking(), Json.Obj(TWICE);
            && Lookup(d.root, "/b") == Some(v)
            && d.Acyclic() && d.Covers(v, 1)
            && Expand(d.root, {}, v) == Json.Obj(map["again" := Json.Obj(map[MARK := Str("#/a")])])
            && Unfold(d, 1, v) == Json.Obj(map["again" := TARGET])
  {
    ShelfFacts();
    ShelfExpansion();
    ShelfUnfolding();
  }

  lemma ShelfFacts()
    ensures LocalRef(AGAIN) == Some("/a") && LocalRef(TWICE) == Some("/a") && LocalRef(map[]).None?
    ensures Lookup(Json.Obj(SHELF), "/a") == Some(TARGET) && Lookup(Json.Obj(SHELF), "/b") == Some(Json.Obj(TWICE))
    ensures RefPointers(TARGET) == {} && RefPointers(Json.Obj(AGAIN)) == {"/a"}
    ensures RefPointers(Json.Obj(TWICE)) == {"/a"} && RefPointers(Json.Obj(SHELF)) == {"/a"}
  {
    ShelfLookups();
    ShelfReferences();
    hide LocalRef, Lookup;
    assert RefPointers(TARGET) == {};
    assert RefPointers(Str("#/a")) == {};
    assert RefPointers(Json.Obj(AGAIN)) == {"/a"};
    ShelfPointers();
  }

  lemma ShelfReferences()
    ensures LocalRef(AGAIN) == Some("/a") && LocalRef(TWICE) == Some("/a")
    ensures LocalRef(map[]).None? && LocalRef(SHELF).None?
  {
    LocalRefOf(AGAIN);
    LocalRefOf(TWICE);
    assert REF != "a" && REF != "b" by {
      assert |REF| == 4;
    }
  }

  lemma ShelfLookups()
    ensures Lookup(Json.Obj(SHELF), "/a") == Some(TARGET) && Lookup(Json.Obj(SHELF), "/b") == Some(Json.Obj(TWICE))
  {
    hide Lookup;
    assert "/" + "a" == "/a" && "/" + "b" == "/b";
    LookupKey(SHELF, "a");
    LookupKey(SHELF, "b");
  }

  lemma ShelfPointers()
    requires RefPointers(TARGET) == {} && RefPointers(Str("#/a")) == {} && RefPointers(Json.Obj(AGAIN)) == {"/a"}
    ensures RefPointers(Json.Obj(TWICE)) == {"/a"} && RefPointers(Json.Obj(SHELF)) == {"/a"}
  {
    hide LocalRef;
    ShelfReferences();
    assert RefPointers(Json.Obj(TWICE)) == {"/a"};
    assert RefPointers(SHELF["b"]) == {"/a"};
  }

  lemma ShelfExpansion()
    ensures Expand(Json.Obj(SHELF), {}, Json.Obj(TWICE)) ==
            Json.Obj(map["again" := Json.Obj(map[MARK := Str("#/a")])])
  {
    hide Lookup, RefPointers, Unseen, LocalRef;
    var root := Json.Obj(SHELF);
    ShelfFacts();
    assert |TWICE| == |TWICE.Keys| && TWICE.Keys == {REF, "again"};
    assert {} + {"/a"} == {"/a"};
    assert Expand(root, {"/a"}, Json.Obj(AGAIN)) == Marker(AGAIN);
    assert ExpandFields(root, {"/a"}, TARGET).fields == map[];
    var e := ExpandFields(root, {"/a"}, Json.Obj(TWICE)).fields;
    assert e["again"] == Marker(AGAIN);
    assert TARGET.fields + (e - {REF}) == map["again" := Marker(AGAIN)];
  }

  lemma ShelfUnfolding()
    ensures var d := ShelfRanking();
            && d.Acyclic() && d.Covers(Json.Obj(TWICE), 1)
            && Unfold(d, 1, Json.Obj(TWICE)) == Json.Obj(map["again" := TARGET])
  {
    hide Lookup, RefPointers, Unseen, LocalRef;
    var d := ShelfRanking();
    ShelfFacts();
    ShelfParts();
    assert |TWICE| == |TWICE.Keys| && TWICE.Keys == {REF, "again"};
    var u := UnfoldFields(d, 1, Json.Obj(TWICE)).fields;
    assert u["again"] == TARGET;
    assert TARGET.fields + (u - {REF}) == map["again" := TARGET];
  }

  lemma ShelfParts()
    ensures var d := ShelfRanking();
            && d.Acyclic() && d.Covers(TARGET, 0) && d.Covers(Json.Obj(AGAIN), 1) && d.Covers(Json.Obj(TWICE), 1)
            && Unfold(d, 0, TARGET) == TARGET && Unfold(d, 1, Json.Obj(AGAIN)) == TARGET
  {
    hide Lookup, RefPointers, Unseen, LocalRef;
    var d := ShelfRanking();
    ShelfFacts();
    assert |AGAIN| == |AGAIN.Keys| && AGAIN.Keys == {REF};
    assert UnfoldFields(d, 0, TARGET).fields == map[];
    assert Unfold(d, 0, TARGET) == TARGET;
  }

  // ------------------------------------------------ a reference made by expansion

  /** Texts under `$ref` are needed for nothing to escape: a value under `$ref` that is itself
      a reference to a text expands to that text, and so becomes a local reference that
      nobody resolves, although its target exists. */
  lemma NestedRefEscapes(root: Json, text: string)
    requires Lookup(root, "/a") == Some(Str(text)) && ReferenceToPointer(text).Some?
    requires Lookup(root, ReferenceToPointer(text).value).Some?
    ensures var out := Expand(root, {}, Json.Obj(map[REF := Json.Obj(AGAIN)]));
            out == Json.Obj(map[REF := Str(text)]) && !Settled(root, out)
  {
    NestedRefExpands(root, text);
    LoneReference(root, text);
  }

  lemma NestedRefExpands(root: Json, text: string)
    requires Lookup(root, "/a") == Some(Str(text))
    ensures Expand(root, {}, Json.Obj(map[REF := Json.Obj(AGAIN)])) == Json.Obj(map[REF := Str(text)])
  {
    var inner := Json.Obj(AGAIN);
    var v := Json.Obj(map[REF := inner]);
    LocalRefOf(AGAIN);
    assert LocalRef(v.fields).None?;
    hide Lookup, RefPointers, Unseen, LocalRef;
    assert |AGAIN| == |AGAIN.Keys| && AGAIN.Keys == {REF};
    assert Expand(root, {}, inner) == Expand(root, {} + {"/a"}, Str(text));
    assert ExpandFields(root, {}, v).fields == map[REF := Str(text)];
  }

  /** A reference with an existing target and no siblings never may stay. */
  lemma LoneReference(root: Json, text: string)
    requires ReferenceToPointer(text).Some? && Lookup(root, ReferenceToPointer(text).value).Some?
    ensures !Settled(root, Json.Obj(map[REF := Str(text)]))
  {
    hide Lookup, ReferenceToPointer, EndsOutside;
    var m: Fields := map[REF := Str(text)];
    assert |m| == |m.Keys| && m.Keys == {REF};
    assert LocalRef(m) == ReferenceToPointer(text);
  }

  const NEST: Fields :=
    map["a" := Str("#/b"), "b" := TARGET, "c" := Json.Obj(map[REF := Json.Obj(AGAIN)])]

  /** Such a document: what it holds under `c` expands to a reference to `b`, which is there. */
  lemma NestedRefEscapesHere()
    ensures var root, v := Json.Obj(NEST), Json.Obj(map[REF := Json.Obj(AGAIN)]);
            && Lookup(root, "/c") == Some(v) && Lookup(root, "/b") == Some(TARGET)
            && Expand(root, {}, v) == Json.Obj(map[REF := Str("#/b")]) && !Settled(root, Expand(root, {}, v))
  {
    var root := Json.Obj(NEST);
    assert "/" + "a" == "/a" && "/" + "b" == "/b" && "/" + "c" == "/c";
    LookupKey(NEST, "a");
    LookupKey(NEST, "b");
    LookupKey(NEST, "c");
    PointerOf("b");
    assert "#/" + "b" == "#/b";
    hide Lookup, Expand, Settled, ReferenceToPointer;
    NestedRefEscapes(root, "#/b");
  }

  lemma PointerOf(key: string)
    requires key != "" && !IsSpace(key[|key| - 1])
    ensures ReferenceToPointer("#/" + key) == Some("/" + key)
  {
    var text := "#/" + key;
    assert text[0] == '#' && text[|text| - 1] == key[|key| - 1] && text[..2] == "#/" && text[1..] == "/" + key;
    assert TrimLeft(text) == text;
    assert TrimRight(text) == text;
  }
}
