/**
 What callers rely on when they edit raw JSON objects (internal/engine/rawjson.go:629-726), stated
 on arbitrary valid object texts: a set or a delete is a map update on the decoded view with the
 order of the members kept, and deleting a member that was just added gives the original bytes
 back exactly when the added text has no whitespace at its end.
 */
module JsonLaws {
  import opened Wrappers
  import opened JsonText
  import opened JsonScan
  import opened JsonSpans
  import opened JsonEdit

  /** The value text without the whitespace around it. */
  function Lexeme(value: Bytes): Bytes {
    TrimRight(value[SkipSpace(value, 0)..])
  }

  function Without(order: seq<string>, key: string): seq<string> {
    if order == [] then []
    else Without(order[..|order| - 1], key) + (if order[|order| - 1] == key then [] else [order[|order| - 1]])
  }

  lemma FirstByte(d: Doc)
    requires DocOk(d)
    ensures var raw := DocBytes(d);
            && SkipSpace(raw, 0) == |d.before| < |raw| && raw[|d.before|] == Render(d.value)[0]
            && raw[|d.before|..] == Render(d.value) + d.after
  {
    hide Render, SkipSpace;
    var raw := DocBytes(d);
    ValueEdges(d.value);
    assert At(raw, 0, d.before);
    assert raw[|d.before|] == Render(d.value)[0];
    SkipBlank(raw, 0, d.before);
  }

  lemma LexemeIs(d: Doc)
    requires DocOk(d)
    ensures Lexeme(DocBytes(d)) == Render(d.value)
  {
    hide Render, SkipSpace, DocBytes, TrimRight;
    FirstByte(d);
    ValueEdges(d.value);
    Trimmed(Render(d.value), d.after);
  }

  lemma OpensObject(v: Value)
    requires ValueOk(v) && Render(v) != [] && Render(v)[0] == LBRACE
    ensures v.Object?
  {
  }

  /** Every text the edits accept is the rendering of a strict object. */
  lemma Parsed(c: Codec, raw: Bytes) returns (pre: Bytes, ms: seq<Member>, inner: Bytes, post: Bytes)
    requires Sound(c) && ValidObject(c, raw)
    ensures StrictObject(c, pre, ms, inner, post) && raw == ObjectBytes(pre, ms, inner, post)
  {
    hide Render, SkipSpace, Strict;
    var d :| StrictDoc(c, d) && raw == DocBytes(d);
    FirstByte(d);
    ValueEdges(d.value);
    OpensObject(d.value);
    pre, ms, inner, post := d.before, d.value.members, d.value.inner, d.after;
    assert d == Doc(pre, Object(ms, inner), post);
  }

  lemma ParsedValue(c: Codec, value: Bytes) returns (d: Doc)
    requires Sound(c) && c.valid(value)
    ensures StrictDoc(c, d) && value == DocBytes(d)
  {
    assert IsText(c, value);
    d :| StrictDoc(c, d) && value == DocBytes(d);
  }

  lemma ViewOf(c: Codec, pre: Bytes, ms: seq<Member>, inner: Bytes, post: Bytes)
    requires StrictObject(c, pre, ms, inner, post)
    ensures ObjectView(c.unquote, ObjectBytes(pre, ms, inner, post)) == Some((Names(c.unquote, ms), Lexemes(c.unquote, ms)))
    ensures Distinct(Names(c.unquote, ms))
  {
    hide ObjectView, Lexemes, StrictObject, Distinct, Render;
    ObjectFacts(c, pre, ms, inner, post);
    ViewRead(c.unquote, pre, ms, inner, post);
  }

  lemma {:induction false} LexemeNames(u: Unquote, ms: seq<Member>)
    ensures forall k :: k in Lexemes(u, ms) <==> k in Names(u, ms)
  {
    hide Name, Render;
    if ms != [] {
      LexemeNames(u, ms[..|ms| - 1]);
    }
  }

  lemma LexemesOf(u: Unquote, ms: seq<Member>)
    requires Distinct(Names(u, ms))
    ensures forall i :: 0 <= i < |ms| ==>
              Names(u, ms)[i] in Lexemes(u, ms) && Lexemes(u, ms)[Names(u, ms)[i]] == Render(ms[i].value)
  {
    hide *;
    LexemesAre(u, ms);
    forall i | 0 <= i < |ms|
      ensures Names(u, ms)[i] in Lexemes(u, ms) && Lexemes(u, ms)[Names(u, ms)[i]] == Render(ms[i].value)
    {
      assert Names(u, ms)[i] == Name(u, ms[i]);
    }
  }

  /** A view is determined by the names and the values of the members. */
  lemma LexemesMatch(u: Unquote, ms: seq<Member>, view: map<string, Bytes>)
    requires Distinct(Names(u, ms))
    requires forall i :: 0 <= i < |ms| ==> Names(u, ms)[i] in view && view[Names(u, ms)[i]] == Render(ms[i].value)
    requires forall k :: k in view ==> k in Names(u, ms)
    ensures Lexemes(u, ms) == view
  {
    hide Lexemes, Names, Render, Distinct;
    LexemesOf(u, ms);
    LexemeNames(u, ms);
    SameMap(Names(u, ms), Lexemes(u, ms), view);
  }

  // ----- setting a member -----

  lemma ReplacedIs(u: Unquote, ms: seq<Member>, i: nat, d: Doc)
    requires i < |ms|
    ensures var r := Replaced(ms, i, d);
            && Names(u, r) == Names(u, ms) && |r| == |ms| && r[i].value == d.value
            && forall j :: 0 <= j < |ms| && j != i ==> r[j] == ms[j]
  {
    hide Names;
    SameNames(u, ms, Replaced(ms, i, d));
  }

  lemma ReplacedLexeme(u: Unquote, ms: seq<Member>, i: nat, d: Doc, j: nat)
    requires i < |ms| && j < |ms| && Distinct(Names(u, ms))
    ensures var r, view := Replaced(ms, i, d), Lexemes(u, ms)[Names(u, ms)[i] := Render(d.value)];
            |r| == |ms| && Names(u, ms)[j] in view && view[Names(u, ms)[j]] == Render(r[j].value)
  {
    hide *;
    ReplacedIs(u, ms, i, d);
    LexemesOf(u, ms);
    if j != i {
      Apart(Names(u, ms), i, j);
    }
  }

  lemma ReplacedView(u: Unquote, ms: seq<Member>, i: nat, d: Doc)
    requires i < |ms| && Distinct(Names(u, ms))
    ensures Names(u, Replaced(ms, i, d)) == Names(u, ms)
    ensures Lexemes(u, Replaced(ms, i, d)) == Lexemes(u, ms)[Names(u, ms)[i] := Render(d.value)]
  {
    hide *;
    var r, view := Replaced(ms, i, d), Lexemes(u, ms)[Names(u, ms)[i] := Render(d.value)];
    ReplacedIs(u, ms, i, d);
    LexemeNames(u, ms);
    forall j | 0 <= j < |r| ensures Names(u, r)[j] in view && view[Names(u, r)[j]] == Render(r[j].value) {
      ReplacedLexeme(u, ms, i, d, j);
    }
    LexemesMatch(u, r, view);
  }

  lemma Apart(names: seq<string>, i: nat, j: nat)
    requires Distinct(names) && i < |names| && j < |names| && i != j
    ensures names[i] != names[j]
  {
  }

  lemma AddedView(u: Unquote, ms: seq<Member>, inner: Bytes, items: seq<Item>, d: Doc, key: string)
    requires Distinct(Names(u, ms)) && key !in Names(u, ms)
    requires Names(u, Added(ms, inner, items, d)) == Names(u, ms) + [key]
    ensures Lexemes(u, Added(ms, inner, items, d)) == Lexemes(u, ms)[key := Render(d.value)]
  {
    hide Lexemes, Name, Names, Render, Added;
    var a := Added(ms, inner, items, d);
    AddedNames(u, ms, inner, items, d);
    LexemesOf(u, ms);
    LexemeNames(u, ms);
    var names := Names(u, a);
    assert forall i :: 0 <= i < |ms| ==> names[i] == Names(u, ms)[i] && a[i].value == ms[i].value;
    LexemesMatch(u, a, Lexemes(u, ms)[key := Render(d.value)]);
  }

  /** On the decoded view a set is a map update; a new name comes last and no other name moves. */
  lemma SetUpdatesView(c: Codec, raw: Bytes, key: string, value: Bytes)
    requires Sound(c) && ValidObject(c, raw) && c.validKey(key) && c.valid(value)
    ensures var was, out := ObjectView(c.unquote, raw), SetMember(c, raw, key, value);
            && was.Some? && out.Some? && ValidObject(c, out.value)
            && ObjectView(c.unquote, out.value) ==
                 Some((if key in was.value.0 then was.value.0 else was.value.0 + [key], was.value.1[key := Lexeme(value)]))
  {
    hide *;
    var pre, ms, inner, post := Parsed(c, raw);
    var d := ParsedValue(c, value);
    ViewOf(c, pre, ms, inner, post);
    assert DocOk(d) by { DocOf(c, d); }
    LexemeIs(d);
    if key in Names(c.unquote, ms) {
      var i := NameAt(c.unquote, ms, key);
      SetPresent(c, pre, ms, inner, post, i, d);
      ViewOf(c, pre, Replaced(ms, i, d), inner, post);
      ReplacedView(c.unquote, ms, i, d);
      AcceptedObject(c, pre, Replaced(ms, i, d), inner, post);
    } else {
      var items := Quoted(c, key);
      SetAbsent(c, pre, ms, inner, post, key, items, d);
      AddedStrict(c, pre, ms, inner, post, key, items, d);
      ViewOf(c, pre, Added(ms, inner, items, d), inner, post);
      AddedView(c.unquote, ms, inner, items, d, key);
      AcceptedObject(c, pre, Added(ms, inner, items, d), inner, post);
    }
  }

  /**
   A set gives back an object only for a valid key and a value that is one strict text of its
   own, whatever bytes it is applied to; on a valid object those two are all it asks for.
   */
  lemma SetSucceedsExactly(c: Codec, raw: Bytes, key: string, value: Bytes)
    requires Sound(c)
    ensures var out := SetMember(c, raw, key, value);
            && (out.Some? ==> c.validKey(key) && IsText(c, value) && IsText(c, out.value) && ValidObject(c, out.value))
            && (ValidObject(c, raw) ==> (out.Some? <==> c.validKey(key) && IsText(c, value)))
  {
    hide IsText, ObjectSpans, ObjectView, Insert;
    if ValidObject(c, raw) && c.validKey(key) && c.valid(value) {
      SetUpdatesView(c, raw, key, value);
    }
  }

  lemma DocOf(c: Codec, d: Doc)
    requires StrictDoc(c, d)
    ensures DocOk(d)
  {
  }

  lemma AcceptedObject(c: Codec, pre: Bytes, ms: seq<Member>, inner: Bytes, post: Bytes)
    requires StrictObject(c, pre, ms, inner, post)
    ensures ValidObject(c, ObjectBytes(pre, ms, inner, post))
  {
    hide ObjectBytes, StrictObject, ValidObject;
    CheckedObject(c, pre, ms, inner, post);
  }

  lemma NameAt(u: Unquote, ms: seq<Member>, key: string) returns (i: nat)
    requires key in Names(u, ms)
    ensures i < |ms| && Names(u, ms)[i] == key && Name(u, ms[i]) == key
  {
    hide Name, Names;
    i :| i < |Names(u, ms)| && Names(u, ms)[i] == key;
  }

  lemma Quoted(c: Codec, key: string) returns (items: seq<Item>)
    requires Sound(c) && c.validKey(key)
    ensures QuotesAs(c, key, items)
  {
    hide QuotesAs;
    items :| QuotesAs(c, key, items);
  }

  // ----- deleting a member -----

  lemma {:induction false} WithoutAt(order: seq<string>, i: nat)
    requires i < |order| && Distinct(order)
    ensures Without(order, order[i]) == order[..i] + order[i + 1..]
  {
    var n := |order| - 1;
    var init := order[..n];
    if i == n {
      WithoutAbsent(init, order[i]);
    } else {
      WithoutAt(init, i);
      assert order[i] != order[n];
      assert order[..i] + order[i + 1..] == (init[..i] + init[i + 1..]) + [order[n]];
    }
  }

  lemma {:induction false} WithoutAbsent(order: seq<string>, key: string)
    requires key !in order
    ensures Without(order, key) == order
  {
    if order != [] {
      assert order == order[..|order| - 1] + [order[|order| - 1]];
      WithoutAbsent(order[..|order| - 1], key);
    }
  }

  lemma CutOut(names: seq<string>, i: nat)
    requires i < |names| && Distinct(names)
    ensures var r := names[..i] + names[i + 1..];
            && Distinct(r) && forall k :: k in r <==> k in names && k != names[i]
  {
    var r := names[..i] + names[i + 1..];
    assert forall j :: 0 <= j < |r| ==> r[j] == names[if j < i then j else j + 1];
    forall k | k in names && k != names[i] ensures k in r {
      var j :| 0 <= j < |names| && names[j] == k;
      assert r[if j < i then j else j - 1] == k;
    }
  }

  lemma RemovedLexeme(u: Unquote, ms: seq<Member>, i: nat, j: nat)
    requires i < |ms| && j < |ms| - 1 && Distinct(Names(u, ms))
    ensures |Removed(ms, i)| == |ms| - 1
    ensures var r, view := Removed(ms, i), Lexemes(u, ms) - {Names(u, ms)[i]};
            Names(u, r)[j] in view && view[Names(u, r)[j]] == Render(r[j].value)
  {
    hide Names, Lexemes, Render, Removed, Distinct;
    RemovedAt(ms, i);
    RemovedNames(u, ms, i);
    LexemesOf(u, ms);
    assert Names(u, Removed(ms, i))[j] == Names(u, ms)[Before(i, j)];
    Apart(Names(u, ms), Before(i, j), i);
  }

  lemma RemovedView(u: Unquote, ms: seq<Member>, i: nat)
    requires i < |ms| && Distinct(Names(u, ms))
    ensures Names(u, Removed(ms, i)) == Without(Names(u, ms), Names(u, ms)[i])
    ensures Distinct(Names(u, Removed(ms, i)))
    ensures Lexemes(u, Removed(ms, i)) == Lexemes(u, ms) - {Names(u, ms)[i]}
  {
    hide *;
    var names, r := Names(u, ms), Removed(ms, i);
    RemovedNames(u, ms, i);
    WithoutAt(names, i);
    LexemeNames(u, ms);
    CutOut(names, i);
    var view := Lexemes(u, ms) - {names[i]};
    forall j | 0 <= j < |r| ensures Names(u, r)[j] in view && view[Names(u, r)[j]] == Render(r[j].value) {
      RemovedLexeme(u, ms, i, j);
    }
    LexemesMatch(u, r, view);
  }

  /** On the decoded view a delete removes the name and moves no other; a missing name changes no byte. */
  lemma DeleteUpdatesView(c: Codec, raw: Bytes, key: string)
    requires Sound(c) && ValidObject(c, raw) && c.validKey(key)
    ensures var was, out := ObjectView(c.unquote, raw), DeleteMember(c, raw, key);
            && was.Some? && out.Some? && ValidObject(c, out.value)
            && ObjectView(c.unquote, out.value) == Some((Without(was.value.0, key), was.value.1 - {key}))
            && (key !in was.value.0 ==> out.value == raw)
  {
    hide *;
    var pre, ms, inner, post := Parsed(c, raw);
    ViewOf(c, pre, ms, inner, post);
    if key in Names(c.unquote, ms) {
      var i := NameAt(c.unquote, ms, key);
      DeletePresent(c, pre, ms, inner, post, i);
      RemovedStrict(c, pre, ms, inner, post, i);
      ViewOf(c, pre, Removed(ms, i), RemovedInner(ms, inner), post);
      RemovedView(c.unquote, ms, i);
      AcceptedObject(c, pre, Removed(ms, i), RemovedInner(ms, inner), post);
    } else {
      DeleteAbsent(c, pre, ms, inner, post, key);
      WithoutAbsent(Names(c.unquote, ms), key);
      LexemeNames(c.unquote, ms);
      assert Lexemes(c.unquote, ms) - {key} == Lexemes(c.unquote, ms);
    }
  }

  /** On a valid object a delete asks for a valid key and nothing else; what it gives back is an object. */
  lemma DeleteSucceedsExactly(c: Codec, raw: Bytes, key: string)
    requires Sound(c) && ValidObject(c, raw)
    ensures DeleteMember(c, raw, key).Some? <==> c.validKey(key)
    ensures DeleteMember(c, raw, key).Some? ==> ValidObject(c, DeleteMember(c, raw, key).value)
  {
    hide ObjectSpans, ObjectView, Cut, ValidObject, Sound;
    if c.validKey(key) {
      DeleteUpdatesView(c, raw, key);
    }
  }

  // ----- adding, then deleting -----

  lemma AddedRemoved(ms: seq<Member>, inner: Bytes, items: seq<Item>, d: Doc)
    ensures var a := Added(ms, inner, items, d);
            && (ms == [] ==> Removed(a, 0) == [] && RemovedInner(a, inner) == d.after + inner)
            && (ms != [] ==> Removed(a, |ms|) == ms[|ms| - 1 := ms[|ms| - 1].(after := d.after + ms[|ms| - 1].after)])
  {
    var a := Added(ms, inner, items, d);
    if ms == [] {
      assert [] + (d.after + inner) == d.after + inner;
    } else {
      assert a[..|ms| - 1] == ms[..|ms| - 1];
      assert a[|ms| + 1..] == [];
    }
  }

  /** The bytes of an object whose closing whitespace has grown at the front. */
  lemma Grown(pre: Bytes, ms: seq<Member>, inner: Bytes, post: Bytes, w: Bytes)
    ensures ms == [] ==> ObjectBytes(pre, [], w + inner, post) == Front(pre, ms) + w + Tail(ms, inner) + [RBRACE] + post
    ensures ms != [] ==> ObjectBytes(pre, ms[|ms| - 1 := ms[|ms| - 1].(after := w + ms[|ms| - 1].after)], inner, post) ==
                         Front(pre, ms) + w + Tail(ms, inner) + [RBRACE] + post
  {
    hide ObjectBytes, KeyValue, Left;
    if ms == [] {
      FrontTail(pre, [], w + inner, post);
      assert pre + [LBRACE] + (w + inner) == pre + [LBRACE] + w + inner;
    } else {
      var i := |ms| - 1;
      var g := ms[i := ms[i].(after := w + ms[i].after)];
      FrontTail(pre, g, inner, post);
      assert g[..i] == ms[..i];
      SameKeyValue(g[i], ms[i]);
      assert Front(pre, g) == Front(pre, ms);
      assert Front(pre, ms) + (w + ms[i].after) == Front(pre, ms) + w + ms[i].after;
    }
  }

  /** Adding a member and deleting it leaves the added text's trailing whitespace before the brace. */
  lemma AddThenDelete(c: Codec, pre: Bytes, ms: seq<Member>, inner: Bytes, post: Bytes, key: string, items: seq<Item>, d: Doc)
    requires StrictObject(c, pre, ms, inner, post) && StrictDoc(c, d)
    requires c.validKey(key) && QuotesAs(c, key, items) && key !in Names(c.unquote, ms)
    ensures DeleteMember(c, ObjectBytes(pre, Added(ms, inner, items, d), inner, post), key) ==
              Some(Front(pre, ms) + d.after + Tail(ms, inner) + [RBRACE] + post)
  {
    hide *;
    var a := Added(ms, inner, items, d);
    AddedStrict(c, pre, ms, inner, post, key, items, d);
    AddedNames(c.unquote, ms, inner, items, d);
    assert Name(c.unquote, a[|ms|]) == key by {
      assert Names(c.unquote, a)[|ms|] == key;
    }
    DeletePresent(c, pre, a, inner, post, |ms|);
    AddedRemoved(ms, inner, items, d);
    Grown(pre, ms, inner, post, d.after);
    if ms != [] {
      assert RemovedInner(a, inner) == inner by { KeepsInner(a, inner); }
    }
  }

  lemma KeepsInner(ms: seq<Member>, inner: Bytes)
    requires |ms| > 1
    ensures RemovedInner(ms, inner) == inner
  {
  }

  lemma EndsBlank(d: Doc)
    requires DocOk(d)
    ensures var v := DocBytes(d); v != [] && (IsSpace(v[|v| - 1]) <==> d.after != [])
  {
    hide Render;
    ValueEdges(d.value);
    var v := DocBytes(d);
    if d.after == [] {
      assert v[|v| - 1] == Render(d.value)[|Render(d.value)| - 1];
    } else {
      assert v[|v| - 1] == d.after[|d.after| - 1];
    }
  }

  /**
   The promise beside setMember is that deleting a member just added restores the original bytes.
   It is kept exactly for the values that do not end in whitespace.
   */
  lemma SetThenDelete(c: Codec, raw: Bytes, key: string, value: Bytes)
    requires Sound(c) && ValidObject(c, raw) && c.validKey(key) && c.valid(value)
    requires ObjectView(c.unquote, raw).Some? && key !in ObjectView(c.unquote, raw).value.0
    ensures value != [] && SetMember(c, raw, key, value).Some?
    ensures DeleteMember(c, SetMember(c, raw, key, value).value, key) == Some(raw) <==> !IsSpace(value[|value| - 1])
  {
    hide *;
    var pre, ms, inner, post := Parsed(c, raw);
    var d := ParsedValue(c, value);
    ViewOf(c, pre, ms, inner, post);
    DocOf(c, d);
    EndsBlank(d);
    var items := Quoted(c, key);
    SetAbsent(c, pre, ms, inner, post, key, items, d);
    AddThenDelete(c, pre, ms, inner, post, key, items, d);
    FrontTail(pre, ms, inner, post);
    var f, t := Front(pre, ms), Tail(ms, inner);
    if d.after == [] {
      assert f + d.after + t + [RBRACE] + post == f + t + [RBRACE] + post;
    } else {
      assert |f + d.after + t + [RBRACE] + post| > |f + t + [RBRACE] + post|;
    }
  }

  /** The failing case: adding `1` followed by a space to `{}` and deleting it gives `{ }`. */
  lemma TrailingSpaceSurvives(c: Codec, key: string)
    requires Sound(c) && c.validKey(key) && c.goodToken([49])
    ensures var added := SetMember(c, [LBRACE, RBRACE], key, [49, 32]);
            added.Some? && DeleteMember(c, added.value, key) == Some([LBRACE, 32, RBRACE])
  {
    hide Sound, DeleteMember, SetMember, QuotesAs;
    var items := Quoted(c, key);
    var d := Doc([], Token([49]), [32]);
    assert StrictDoc(c, d) && DocBytes(d) == [49, 32];
    assert Names(c.unquote, []) == [];
    ObjectFrom(c, [], [], [], []);
    assert ObjectBytes([], [], [], []) == [LBRACE, RBRACE];
    SetAbsent(c, [], [], [], [], key, items, d);
    AddThenDelete(c, [], [], [], [], key, items, d);
    assert Front([], []) + d.after + Tail([], []) + [RBRACE] + [] == [LBRACE, 32, RBRACE];
  }
}
