/**
 Editing an object by splicing bytes around member spans: setMember, deleteMember and
 deleteMembers (internal/engine/rawjson.go:629-767).

 The strict JSON validator, the string codec and the key check are parameters; `Sound` says
 what the host relies on them for. Each edit is a function of the bytes, proved to be the
 rendering of an edited tree, and the laws of the edits are proved on the trees.
 */
module JsonEdit {
  import opened Wrappers
  import opened JsonText
  import opened JsonScan
  import opened JsonSpans

  /**
   The host's string codec, key check and validator. `goodToken` and `goodString` are the lexical
   rules the validator adds to the grammar: which runs are numbers or literals, and which string
   bodies are valid UTF-8 with paired surrogates.
   */
  datatype Codec = Codec(
    unquote: Unquote,
    quote: string -> Bytes,
    validKey: string -> bool,
    valid: Bytes -> bool,
    goodToken: Bytes -> bool,
    goodString: seq<Item> -> bool)

  /** Every lexeme, at any depth, is a good one, and every object has pairwise distinct decoded names. */
  ghost predicate Strict(c: Codec, v: Value)
    decreases v
  {
    match v
    case Text(items) => c.goodString(items)
    case Token(bytes) => c.goodToken(bytes)
    case Array(elems, _) => forall i :: 0 <= i < |elems| ==> Strict(c, elems[i].value)
    case Object(members, _) =>
      && Distinct(Names(c.unquote, members)) && GoodKeys(c, members)
      && forall i :: 0 <= i < |members| ==> Strict(c, members[i].value)
  }

  ghost predicate GoodKeys(c: Codec, ms: seq<Member>) {
    forall i :: 0 <= i < |ms| ==> c.goodString(ms[i].key)
  }

  ghost predicate StrictDoc(c: Codec, d: Doc) {
    DocOk(d) && Strict(c, d.value)
  }

  ghost predicate IsText(c: Codec, raw: Bytes) {
    exists d :: StrictDoc(c, d) && raw == DocBytes(d)
  }

  ghost predicate QuotesAs(c: Codec, key: string, items: seq<Item>) {
    && ItemsOk(items) && c.goodString(items)
    && c.quote(key) == StringText(items) && c.unquote(StringText(items)) == Some(key)
  }

  /** The validator accepts exactly the strict texts, good names decode, and a valid key is quoted as a good string that decodes to it. */
  ghost predicate Sound(c: Codec) {
    && (forall items :: ItemsOk(items) && c.goodString(items) ==> c.unquote(StringText(items)).Some?)
    && (forall key :: c.validKey(key) ==> exists items :: QuotesAs(c, key, items))
    && (forall raw :: c.valid(raw) <==> IsText(c, raw))
  }

  // ----- the edits on bytes -----

  /** validateObjectShape: a strict text whose first byte after whitespace opens an object. */
  predicate ValidObject(c: Codec, raw: Bytes) {
    var p := SkipSpace(raw, 0);
    raw != [] && c.valid(raw) && p < |raw| && raw[p] == LBRACE
  }

  function Checked(c: Codec, raw: Bytes): Option<Bytes> {
    if ValidObject(c, raw) then Some(raw) else None
  }

  /** The bytes without their trailing whitespace. */
  function TrimRight(bs: Bytes): (r: Bytes)
    ensures |r| <= |bs| && r == bs[..|r|]
  {
    if bs != [] && IsSpace(bs[|bs| - 1]) then TrimRight(bs[..|bs| - 1]) else bs
  }

  function Insert(c: Codec, raw: Bytes, close: nat, key: string, value: Bytes): Bytes
    requires close < |raw|
  {
    var base := TrimRight(raw[..close]);
    base
    + (if base != [] && base[|base| - 1] == LBRACE then [] else [COMMA])
    + c.quote(key) + [COLON] + value + raw[|base|..close] + [RBRACE] + raw[close + 1..]
  }

  function SetMember(c: Codec, raw: Bytes, key: string, value: Bytes): Option<Bytes> {
    if !c.validKey(key) || !c.valid(value) then None
    else
      var sp := ObjectSpans(c.unquote, raw);
      if sp.None? then None
      else if key in sp.value.spans then
        Checked(c, raw[..sp.value.spans[key].valStart] + value + raw[sp.value.spans[key].valEnd..])
      else Checked(c, Insert(c, raw, sp.value.close, key, value))
  }

  /** The first position of a key in the member order. */
  function IndexOf(order: seq<string>, key: string): (i: nat)
    ensures i <= |order|
    ensures i < |order| ==> order[i] == key
    ensures forall j :: 0 <= j < i ==> order[j] != key
  {
    if order == [] then 0 else if order[0] == key then 0 else 1 + IndexOf(order[1..], key)
  }

  /** What remains when the i-th member goes with one separator. */
  function Cut(raw: Bytes, sp: Spans, i: nat): Bytes
    requires i < |sp.order|
    requires forall j :: 0 <= j < |sp.order| ==> sp.order[j] in sp.spans
    requires forall k :: k in sp.spans ==> Fits(sp.spans[k], raw)
  {
    var own := sp.spans[sp.order[i]];
    assert Fits(own, raw);
    if i > 0 then
      var prev := sp.spans[sp.order[i - 1]];
      assert Fits(prev, raw);
      raw[..prev.valEnd] + raw[own.valEnd..]
    else if |sp.order| > 1 then
      var next := sp.spans[sp.order[1]];
      assert Fits(next, raw);
      raw[..own.keyStart] + raw[next.keyStart..]
    else raw[..own.keyStart] + raw[own.valEnd..]
  }

  function DeleteMember(c: Codec, raw: Bytes, key: string): Option<Bytes> {
    if !c.validKey(key) then None
    else
      var sp := ObjectSpans(c.unquote, raw);
      if sp.None? then None
      else
        var i := IndexOf(sp.value.order, key);
        if i == |sp.value.order| then Some(raw) else Checked(c, Cut(raw, sp.value, i))
  }

  // ----- the pieces of a rendered object -----

  /** A member from its key to the end of its value. */
  function KeyValue(m: Member): Bytes {
    StringText(m.key) + m.keyGap + [COLON] + m.valueGap + Render(m.value)
  }

  lemma MemberIs(m: Member)
    ensures MemberBytes(m) == m.before + KeyValue(m) + m.after
    ensures MemberHead(m) + Render(m.value) == m.before + KeyValue(m)
    ensures |m.before| <= |MemberHead(m)|
  {
    hide StringText, Render;
    var k := StringText(m.key);
    assert MemberHead(m) == m.before + (k + m.keyGap + [COLON] + m.valueGap);
  }

  function ObjectBytes(pre: Bytes, ms: seq<Member>, inner: Bytes, post: Bytes): Bytes {
    pre + Render(Object(ms, inner)) + post
  }

  /** Everything before member `i`, up to and including the separator before it. */
  function Ahead(pre: Bytes, ms: seq<Member>, i: nat): Bytes
    requires i <= |ms|
  {
    pre + [LBRACE] + Left(ms[..i])
  }

  /** Everything after member `i`. */
  function Behind(ms: seq<Member>, i: nat, post: Bytes): Bytes
    requires i < |ms|
  {
    Right(ms[i + 1..]) + [RBRACE] + post
  }

  /** An object around its i-th member. */
  lemma ObjectSplit(pre: Bytes, ms: seq<Member>, inner: Bytes, post: Bytes, i: nat)
    requires i < |ms|
    ensures ObjectBytes(pre, ms, inner, post) == Ahead(pre, ms, i) + MemberBytes(ms[i]) + Behind(ms, i, post)
    ensures MemberStart(ms, i, |pre| + 1) == |Ahead(pre, ms, i)|
  {
    hide MemberBytes, Members, Left, Right;
    MembersSplit(ms, i);
    var l, m, r := Left(ms[..i]), MemberBytes(ms[i]), Right(ms[i + 1..]);
    assert Render(Object(ms, inner)) == [LBRACE] + (l + m + r) + [RBRACE];
    assert pre + ([LBRACE] + (l + m + r) + [RBRACE]) + post == (pre + [LBRACE] + l) + m + (r + [RBRACE] + post);
  }

  /** The bytes before and after the value, and before the key, of member `i`, as the spans cut them. */
  lemma SpanCuts(pre: Bytes, ms: seq<Member>, inner: Bytes, post: Bytes, i: nat)
    requires i < |ms|
    ensures var raw, sp := ObjectBytes(pre, ms, inner, post), SpanOf(ms, i, |pre| + 1);
            && Fits(sp, raw) && (i > 0 ==> sp.sepStart + 1 + |ms[i].before| == sp.keyStart)
            && raw[..sp.keyStart] == Ahead(pre, ms, i) + ms[i].before
            && raw[sp.keyStart..] == KeyValue(ms[i]) + ms[i].after + Behind(ms, i, post)
            && raw[..sp.valStart] == Ahead(pre, ms, i) + MemberHead(ms[i])
            && raw[..sp.valEnd] == Ahead(pre, ms, i) + ms[i].before + KeyValue(ms[i])
            && raw[sp.valEnd..] == ms[i].after + Behind(ms, i, post)
            && raw[sp.keyStart..sp.valEnd] == KeyValue(ms[i])
  {
    hide StringText, Render, Members, ObjectBytes, Ahead, Behind, KeyValue, MemberHead, MemberBytes, MemberStart;
    var m := ms[i];
    var a, z := Ahead(pre, ms, i), Behind(ms, i, post);
    ObjectSplit(pre, ms, inner, post, i);
    MemberIs(m);
    var raw, sp := ObjectBytes(pre, ms, inner, post), SpanOf(ms, i, |pre| + 1);
    assert raw == (a + m.before) + (KeyValue(m) + m.after + z);
    assert raw == (a + m.before + KeyValue(m)) + (m.after + z);
    assert raw == (a + MemberHead(m)) + (Render(m.value) + (m.after + z)) by {
      assert m.before + KeyValue(m) + m.after == MemberHead(m) + Render(m.value) + m.after;
    }
    assert |a + MemberHead(m)| + |Render(m.value)| == |a + m.before + KeyValue(m)|;
  }

  // ----- a well-formed object and its edits -----

  /** The hypotheses every law shares: a strict object text. */
  ghost predicate StrictObject(c: Codec, pre: Bytes, ms: seq<Member>, inner: Bytes, post: Bytes) {
    Sound(c) && StrictDoc(c, Doc(pre, Object(ms, inner), post))
  }

  lemma ObjectFacts(c: Codec, pre: Bytes, ms: seq<Member>, inner: Bytes, post: Bytes)
    requires StrictObject(c, pre, ms, inner, post)
    ensures Blank(pre) && Blank(inner) && Blank(post) && MembersOk(ms)
    ensures ValueOk(Object(ms, inner)) && NamesDecode(c.unquote, ms) && Distinct(Names(c.unquote, ms))
    ensures GoodKeys(c, ms) && forall i :: 0 <= i < |ms| ==> Strict(c, ms[i].value)
  {
    hide Distinct, Names;
    forall i | 0 <= i < |ms| ensures c.unquote(StringText(ms[i].key)).Some? {
      assert MemberOk(ms[i]);
      assert ItemsOk(ms[i].key);
    }
  }

  lemma ObjectFrom(c: Codec, pre: Bytes, ms: seq<Member>, inner: Bytes, post: Bytes)
    requires Sound(c) && Blank(pre) && Blank(inner) && Blank(post) && MembersOk(ms) && Distinct(Names(c.unquote, ms))
    requires GoodKeys(c, ms) && forall i :: 0 <= i < |ms| ==> Strict(c, ms[i].value)
    ensures StrictObject(c, pre, ms, inner, post)
  {
    hide Distinct, Names;
  }

  /** A strict object text passes the check every edit ends with. */
  lemma CheckedObject(c: Codec, pre: Bytes, ms: seq<Member>, inner: Bytes, post: Bytes)
    requires StrictObject(c, pre, ms, inner, post)
    ensures Checked(c, ObjectBytes(pre, ms, inner, post)) == Some(ObjectBytes(pre, ms, inner, post))
  {
    hide SkipSpace, Strict, Members;
    var d := Doc(pre, Object(ms, inner), post);
    var raw := ObjectBytes(pre, ms, inner, post);
    assert raw == DocBytes(d) && IsText(c, raw);
    Braced(pre, Inside(Object(ms, inner)), post);
    SkipBlank(raw, 0, pre);
  }

  lemma ObjectSpansAre(c: Codec, pre: Bytes, ms: seq<Member>, inner: Bytes, post: Bytes)
    requires StrictObject(c, pre, ms, inner, post)
    ensures ObjectSpans(c.unquote, ObjectBytes(pre, ms, inner, post)) ==
              Some(Spans(Names(c.unquote, ms), SpanMap(c.unquote, ms, |ms|, |pre| + 1), |pre| + |Render(Object(ms, inner))| - 1))
    ensures forall i :: 0 <= i < |ms| ==>
              && Name(c.unquote, ms[i]) in SpanMap(c.unquote, ms, |ms|, |pre| + 1)
              && SpanMap(c.unquote, ms, |ms|, |pre| + 1)[Name(c.unquote, ms[i])] == SpanOf(ms, i, |pre| + 1)
  {
    hide ObjectSpans, Render, SpanMap, SpanOf, Name, Names, StrictObject, ValueOk, Blank, NamesDecode, Distinct, MembersOk;
    ObjectFacts(c, pre, ms, inner, post);
    ObjectRead(c.unquote, pre, ms, inner, post);
    SpanMapHas(c.unquote, ms, |ms|, |pre| + 1);
  }

  /** Member `i` with a new value; the new text's own whitespace joins the gaps around it. */
  function Replaced(ms: seq<Member>, i: nat, d: Doc): seq<Member>
    requires i < |ms|
  {
    var m := ms[i];
    ms[i := m.(valueGap := m.valueGap + d.before, value := d.value, after := d.after + m.after)]
  }

  lemma SameNames(u: Unquote, a: seq<Member>, b: seq<Member>)
    requires |a| == |b| && forall i :: 0 <= i < |a| ==> a[i].key == b[i].key
    ensures Names(u, a) == Names(u, b)
  {
    forall i | 0 <= i < |a| ensures Names(u, a)[i] == Names(u, b)[i] {
      assert Name(u, a[i]) == Name(u, b[i]);
    }
  }

  lemma ReplacedStrict(c: Codec, pre: Bytes, ms: seq<Member>, inner: Bytes, post: Bytes, i: nat, d: Doc)
    requires StrictObject(c, pre, ms, inner, post) && StrictDoc(c, d) && i < |ms|
    ensures StrictObject(c, pre, Replaced(ms, i, d), inner, post)
  {
    hide StrictObject, Strict, ValueOk, Names, Distinct;
    ObjectFacts(c, pre, ms, inner, post);
    var r := Replaced(ms, i, d);
    SameNames(c.unquote, ms, r);
    assert MemberOk(ms[i]);
    assert MembersOk(r);
    SoundOf(c, pre, ms, inner, post);
    ObjectFrom(c, pre, r, inner, post);
  }

  lemma SoundOf(c: Codec, pre: Bytes, ms: seq<Member>, inner: Bytes, post: Bytes)
    requires StrictObject(c, pre, ms, inner, post)
    ensures Sound(c)
  {
  }

  /** Replacing the value bytes renders the replaced tree. */
  lemma ReplacedBytes(pre: Bytes, ms: seq<Member>, inner: Bytes, post: Bytes, i: nat, d: Doc)
    requires i < |ms|
    ensures var raw, sp := ObjectBytes(pre, ms, inner, post), SpanOf(ms, i, |pre| + 1);
            && Fits(sp, raw)
            && raw[..sp.valStart] + DocBytes(d) + raw[sp.valEnd..] == ObjectBytes(pre, Replaced(ms, i, d), inner, post)
  {
    hide ObjectBytes, Render, StringText, Left, Right, SpanOf;
    SpanCuts(pre, ms, inner, post, i);
    var m, r := ms[i], Replaced(ms, i, d);
    ObjectSplit(pre, r, inner, post, i);
    assert r[..i] == ms[..i] && r[i + 1..] == ms[i + 1..];
    ReplacedMember(m, d);
    var a, z := Ahead(pre, ms, i), Behind(ms, i, post);
    assert (a + MemberHead(m)) + DocBytes(d) + (m.after + z) == a + (MemberHead(m) + DocBytes(d) + m.after) + z;
  }

  lemma ReplacedMember(m: Member, d: Doc)
    ensures MemberBytes(m.(valueGap := m.valueGap + d.before, value := d.value, after := d.after + m.after)) ==
              MemberHead(m) + DocBytes(d) + m.after
  {
    hide Render, StringText;
    var k := m.before + StringText(m.key) + m.keyGap + [COLON];
    assert k + (m.valueGap + d.before) + Render(d.value) + (d.after + m.after)
        == (k + m.valueGap) + (d.before + Render(d.value) + d.after) + m.after;
  }

  /** Setting a present member replaces its value in place and nothing else. */
  lemma SetPresent(c: Codec, pre: Bytes, ms: seq<Member>, inner: Bytes, post: Bytes, i: nat, d: Doc)
    requires StrictObject(c, pre, ms, inner, post) && StrictDoc(c, d) && i < |ms|
    requires c.validKey(Name(c.unquote, ms[i]))
    ensures SetMember(c, ObjectBytes(pre, ms, inner, post), Name(c.unquote, ms[i]), DocBytes(d)) ==
              Some(ObjectBytes(pre, Replaced(ms, i, d), inner, post))
    ensures StrictObject(c, pre, Replaced(ms, i, d), inner, post)
  {
    hide ObjectBytes, Name, SpanOf, SpanMap, Names, StrictObject, StrictDoc, DocBytes, Replaced, Checked, ObjectSpans, Fits;
    SoundOf(c, pre, ms, inner, post);
    assert IsText(c, DocBytes(d));
    ObjectSpansAre(c, pre, ms, inner, post);
    ReplacedBytes(pre, ms, inner, post, i, d);
    ReplacedStrict(c, pre, ms, inner, post, i, d);
    CheckedObject(c, pre, Replaced(ms, i, d), inner, post);
  }

  // ----- a new member -----

  lemma AbsentName(c: Codec, pre: Bytes, ms: seq<Member>, inner: Bytes, post: Bytes, key: string)
    requires StrictObject(c, pre, ms, inner, post)
    requires key !in Names(c.unquote, ms)
    ensures key !in SpanMap(c.unquote, ms, |ms|, |pre| + 1)
  {
    hide Name, StrictObject, Distinct, SpanMap;
    ObjectFacts(c, pre, ms, inner, post);
    SpanMapHas(c.unquote, ms, |ms|, |pre| + 1);
    var names := Names(c.unquote, ms);
    assert forall i :: 0 <= i < |ms| ==> names[i] in names;
  }

  lemma {:induction false} Trimmed(a: Bytes, b: Bytes)
    requires Blank(b) && a != [] && !IsSpace(a[|a| - 1])
    ensures TrimRight(a + b) == a
    decreases |b|
  {
    if b == [] {
      assert a + b == a;
    } else {
      assert (a + b)[..|a + b| - 1] == a + b[..|b| - 1];
      Trimmed(a, b[..|b| - 1]);
    }
  }

  /** The members with a new last one; the whitespace before the brace stays before the brace. */
  function Added(ms: seq<Member>, inner: Bytes, items: seq<Item>, d: Doc): seq<Member> {
    if ms == [] then [Member([], items, [], d.before, d.value, d.after + inner)]
    else
      var last := ms[|ms| - 1];
      ms[..|ms| - 1] + [last.(after := []), Member([], items, [], d.before, d.value, d.after + last.after)]
  }

  /** The bytes of an object up to the whitespace before its brace, and that whitespace. */
  function Front(pre: Bytes, ms: seq<Member>): Bytes {
    if ms == [] then pre + [LBRACE]
    else Ahead(pre, ms, |ms| - 1) + ms[|ms| - 1].before + KeyValue(ms[|ms| - 1])
  }

  function Tail(ms: seq<Member>, inner: Bytes): Bytes {
    if ms == [] then inner else ms[|ms| - 1].after
  }

  lemma Spread(a: Bytes, b: Bytes, k: Bytes, t: Bytes, post: Bytes)
    ensures a + (b + k + t) + ([] + [RBRACE] + post) == a + b + k + t + [RBRACE] + post
  {
  }

  lemma LastFrontTail(pre: Bytes, ms: seq<Member>, inner: Bytes, post: Bytes)
    requires ms != []
    ensures ObjectBytes(pre, ms, inner, post) == Front(pre, ms) + Tail(ms, inner) + [RBRACE] + post
  {
    hide Members, KeyValue, MemberBytes, ObjectBytes, Ahead;
    var i := |ms| - 1;
    ObjectSplit(pre, ms, inner, post, i);
    MemberIs(ms[i]);
    assert ms[i + 1..] == [];
    Spread(Ahead(pre, ms, i), ms[i].before, KeyValue(ms[i]), ms[i].after, post);
  }

  lemma FrontTail(pre: Bytes, ms: seq<Member>, inner: Bytes, post: Bytes)
    ensures ObjectBytes(pre, ms, inner, post) == Front(pre, ms) + Tail(ms, inner) + [RBRACE] + post
    ensures |Front(pre, ms) + Tail(ms, inner)| == |pre| + |Render(Object(ms, inner))| - 1
  {
    hide Members, Ahead, KeyValue;
    if ms == [] {
      assert pre + ([LBRACE] + inner + [RBRACE]) + post == pre + [LBRACE] + inner + [RBRACE] + post;
    } else {
      hide Render, Front, Tail;
      LastFrontTail(pre, ms, inner, post);
    }
  }

  lemma FrontEdge(pre: Bytes, ms: seq<Member>)
    requires MembersOk(ms)
    ensures var f := Front(pre, ms); f != [] && !IsSpace(f[|f| - 1]) && (f[|f| - 1] == LBRACE <==> ms == [])
  {
    hide Members, Ahead, StringText, Render;
    if ms != [] {
      var m := ms[|ms| - 1];
      assert MemberOk(m);
      ValueEdges(m.value);
      var f, v := Front(pre, ms), Render(m.value);
      assert f[|f| - 1] == v[|v| - 1];
    }
  }

  lemma AddedFront(pre: Bytes, ms: seq<Member>, inner: Bytes, items: seq<Item>, d: Doc)
    ensures var a := Added(ms, inner, items, d);
            && Front(pre, a) + Tail(a, inner) ==
                 Front(pre, ms) + (if ms == [] then [] else [COMMA]) + StringText(items) + [COLON] + DocBytes(d) + Tail(ms, inner)
  {
    hide Members, MemberBytes, StringText, Render;
    var a := Added(ms, inner, items, d);
    var n := |a| - 1;
    var q, v := StringText(items), Render(d.value);
    if ms == [] {
      assert a[..n] == [];
      assert pre + [LBRACE] + [] + [] + (q + [] + [COLON] + d.before + v) + (d.after + inner)
          == pre + [LBRACE] + [] + q + [COLON] + (d.before + v + d.after) + inner;
    } else {
      var last := ms[|ms| - 1];
      assert a[..n] == ms[..|ms| - 1] + [last.(after := [])];
      LeftSnoc(ms[..|ms| - 1], last.(after := []));
      MemberIs(last.(after := []));
      var b := Ahead(pre, ms, |ms| - 1);
      assert Ahead(pre, a, n) == b + MemberBytes(last.(after := [])) + [COMMA];
      assert Ahead(pre, a, n) == Front(pre, ms) + [COMMA];
      var f := Front(pre, ms) + [COMMA];
      assert f + [] + (q + [] + [COLON] + d.before + v) + (d.after + last.after)
          == f + q + [COLON] + (d.before + v + d.after) + last.after;
    }
  }

  lemma AddedBytes(c: Codec, pre: Bytes, ms: seq<Member>, inner: Bytes, post: Bytes, key: string, items: seq<Item>, d: Doc)
    requires MembersOk(ms) && Blank(inner) && c.quote(key) == StringText(items)
    ensures var raw, close := ObjectBytes(pre, ms, inner, post), |pre| + |Render(Object(ms, inner))| - 1;
            && close < |raw|
            && Insert(c, raw, close, key, DocBytes(d)) == ObjectBytes(pre, Added(ms, inner, items, d), inner, post)
  {
    hide ObjectBytes, Render, StringText, DocBytes, Front, Added, TrimRight, KeyValue;
    var raw, close := ObjectBytes(pre, ms, inner, post), |pre| + |Render(Object(ms, inner))| - 1;
    var f, t := Front(pre, ms), Tail(ms, inner);
    FrontTail(pre, ms, inner, post);
    assert ms != [] ==> MemberOk(ms[|ms| - 1]);
    assert raw[..close] == f + t;
    FrontEdge(pre, ms);
    Trimmed(f, t);
    assert raw[|f|..close] == t;
    assert raw[close + 1..] == post;
    AddedFront(pre, ms, inner, items, d);
    FrontTail(pre, Added(ms, inner, items, d), inner, post);
  }

  lemma AddedNames(u: Unquote, ms: seq<Member>, inner: Bytes, items: seq<Item>, d: Doc)
    ensures var a := Added(ms, inner, items, d);
            && Names(u, a) == Names(u, ms) + [Name(u, a[|a| - 1])]
            && a[|a| - 1].key == items && a[|a| - 1].value == d.value
            && |a| == |ms| + 1 && forall i :: 0 <= i < |ms| ==> a[i].key == ms[i].key && a[i].value == ms[i].value
  {
    hide Name;
    var a := Added(ms, inner, items, d);
    SameNames(u, a[..|ms|], ms);
    assert a == a[..|ms|] + [a[|ms|]];
  }

  lemma AddedStrict(c: Codec, pre: Bytes, ms: seq<Member>, inner: Bytes, post: Bytes, key: string, items: seq<Item>, d: Doc)
    requires StrictObject(c, pre, ms, inner, post) && StrictDoc(c, d)
    requires QuotesAs(c, key, items) && key !in Names(c.unquote, ms)
    ensures StrictObject(c, pre, Added(ms, inner, items, d), inner, post)
    ensures Names(c.unquote, Added(ms, inner, items, d)) == Names(c.unquote, ms) + [key]
  {
    hide StrictObject, Strict, ValueOk, Names;
    ObjectFacts(c, pre, ms, inner, post);
    var a := Added(ms, inner, items, d);
    AddedNames(c.unquote, ms, inner, items, d);
    assert ms != [] ==> MemberOk(ms[|ms| - 1]);
    forall i | 0 <= i < |a| ensures MemberOk(a[i]) && Strict(c, a[i].value) {
      if i < |ms| {
        assert MemberOk(ms[i]);
      }
    }
    assert Distinct(Names(c.unquote, a));
    SoundOf(c, pre, ms, inner, post);
    ObjectFrom(c, pre, a, inner, post);
  }

  /** Setting an absent member appends it and touches nothing else. */
  lemma SetAbsent(c: Codec, pre: Bytes, ms: seq<Member>, inner: Bytes, post: Bytes, key: string, items: seq<Item>, d: Doc)
    requires StrictObject(c, pre, ms, inner, post) && StrictDoc(c, d)
    requires c.validKey(key) && QuotesAs(c, key, items) && key !in Names(c.unquote, ms)
    ensures SetMember(c, ObjectBytes(pre, ms, inner, post), key, DocBytes(d)) ==
              Some(ObjectBytes(pre, Added(ms, inner, items, d), inner, post))
  {
    hide ObjectBytes, Name, SpanOf, SpanMap, Names, StrictObject, StrictDoc, DocBytes, Added, Checked, ObjectSpans, Fits, Insert;
    SoundOf(c, pre, ms, inner, post);
    assert IsText(c, DocBytes(d));
    ObjectFacts(c, pre, ms, inner, post);
    ObjectSpansAre(c, pre, ms, inner, post);
    AbsentName(c, pre, ms, inner, post, key);
    AddedBytes(c, pre, ms, inner, post, key, items, d);
    AddedStrict(c, pre, ms, inner, post, key, items, d);
    CheckedObject(c, pre, Added(ms, inner, items, d), inner, post);
  }

  // ----- removing a member -----

  /** The members without the i-th; the whitespace before the first key and before the brace stays. */
  function Removed(ms: seq<Member>, i: nat): seq<Member>
    requires i < |ms|
  {
    if i > 0 then ms[..i - 1] + [ms[i - 1].(after := ms[i].after)] + ms[i + 1..]
    else if |ms| > 1 then [ms[1].(before := ms[0].before)] + ms[2..]
    else []
  }

  function RemovedInner(ms: seq<Member>, inner: Bytes): Bytes {
    if |ms| == 1 then ms[0].before + ms[0].after else inner
  }

  lemma Around(pre: Bytes, a: seq<Member>, i: nat, b: seq<Member>, j: nat, post: Bytes)
    requires i < |a| && j < |b|
    ensures a[..i] == b[..j] ==> Ahead(pre, a, i) == Ahead(pre, b, j)
    ensures a[i + 1..] == b[j + 1..] ==> Behind(a, i, post) == Behind(b, j, post)
  {
  }

  lemma Regroup(a: Bytes, b: Bytes, k: Bytes, t: Bytes, z: Bytes)
    ensures a + (b + k + t) + z == (a + b + k) + (t + z)
    ensures a + (b + k + t) + z == (a + b) + (k + t + z)
  {
  }

  lemma RemovedMiddle(pre: Bytes, ms: seq<Member>, inner: Bytes, post: Bytes, i: nat)
    requires 0 < i < |ms|
    ensures var raw := ObjectBytes(pre, ms, inner, post);
            var prev, own := SpanOf(ms, i - 1, |pre| + 1), SpanOf(ms, i, |pre| + 1);
            && Fits(prev, raw) && Fits(own, raw)
            && raw[..prev.valEnd] + raw[own.valEnd..] == ObjectBytes(pre, Removed(ms, i), inner, post)
  {
    hide ObjectBytes, KeyValue, MemberBytes, Ahead, Behind, SpanOf, Fits, MemberHead;
    var r := Removed(ms, i);
    SpanCuts(pre, ms, inner, post, i - 1);
    SpanCuts(pre, ms, inner, post, i);
    ObjectSplit(pre, r, inner, post, i - 1);
    assert r[..i - 1] == ms[..i - 1] && r[i - 1 + 1..] == ms[i + 1..];
    Around(pre, r, i - 1, ms, i - 1, post);
    Around(pre, r, i - 1, ms, i, post);
    MemberIs(r[i - 1]);
    SameKeyValue(r[i - 1], ms[i - 1]);
    Regroup(Ahead(pre, ms, i - 1), ms[i - 1].before, KeyValue(ms[i - 1]), ms[i].after, Behind(ms, i, post));
  }

  lemma SameKeyValue(a: Member, b: Member)
    requires a.key == b.key && a.keyGap == b.keyGap && a.valueGap == b.valueGap && a.value == b.value
    ensures KeyValue(a) == KeyValue(b)
  {
  }

  lemma RemovedFirst(pre: Bytes, ms: seq<Member>, inner: Bytes, post: Bytes)
    requires |ms| > 1
    ensures var raw := ObjectBytes(pre, ms, inner, post);
            var own, next := SpanOf(ms, 0, |pre| + 1), SpanOf(ms, 1, |pre| + 1);
            && Fits(own, raw) && Fits(next, raw)
            && raw[..own.keyStart] + raw[next.keyStart..] == ObjectBytes(pre, Removed(ms, 0), inner, post)
  {
    hide ObjectBytes, KeyValue, MemberBytes, Ahead, Behind, SpanOf, Fits, MemberHead;
    var r := Removed(ms, 0);
    SpanCuts(pre, ms, inner, post, 0);
    SpanCuts(pre, ms, inner, post, 1);
    ObjectSplit(pre, r, inner, post, 0);
    assert r[..0] == ms[..0] && r[1..] == ms[2..];
    Around(pre, r, 0, ms, 0, post);
    Around(pre, r, 0, ms, 1, post);
    MemberIs(r[0]);
    SameKeyValue(r[0], ms[1]);
    Regroup(Ahead(pre, ms, 0), ms[0].before, KeyValue(ms[1]), ms[1].after, Behind(ms, 1, post));
  }

  lemma RemovedOnly(pre: Bytes, ms: seq<Member>, inner: Bytes, post: Bytes)
    requires |ms| == 1
    ensures var raw, own := ObjectBytes(pre, ms, inner, post), SpanOf(ms, 0, |pre| + 1);
            && Fits(own, raw)
            && raw[..own.keyStart] + raw[own.valEnd..] == ObjectBytes(pre, [], ms[0].before + ms[0].after, post)
  {
    hide KeyValue, MemberBytes, SpanOf, Fits, MemberHead, Members;
    SpanCuts(pre, ms, inner, post, 0);
    var b, a := ms[0].before, ms[0].after;
    assert Ahead(pre, ms, 0) == pre + [LBRACE] && Behind(ms, 0, post) == [RBRACE] + post;
    assert (pre + [LBRACE] + b) + (a + ([RBRACE] + post)) == pre + ([LBRACE] + (b + a) + [RBRACE]) + post;
  }

  lemma IndexOfDistinct(names: seq<string>, i: nat)
    requires i < |names| && Distinct(names)
    ensures IndexOf(names, names[i]) == i
  {
    hide IndexOf;
    assert IndexOf(names, names[i]) <= i;
  }

  lemma IndexOfName(u: Unquote, ms: seq<Member>, i: nat)
    requires i < |ms| && Distinct(Names(u, ms))
    ensures IndexOf(Names(u, ms), Name(u, ms[i])) == i
  {
    hide *;
    IndexOfDistinct(Names(u, ms), i);
  }

  lemma CutIs(c: Codec, pre: Bytes, ms: seq<Member>, inner: Bytes, post: Bytes, i: nat)
    requires StrictObject(c, pre, ms, inner, post) && i < |ms|
    ensures var raw := ObjectBytes(pre, ms, inner, post);
            var sp := ObjectSpans(c.unquote, raw);
            && sp.Some? && i < |sp.value.order|
            && Cut(raw, sp.value, i) == ObjectBytes(pre, Removed(ms, i), RemovedInner(ms, inner), post)
  {
    hide ObjectBytes, Name, SpanOf, SpanMap, StrictObject, Removed, ObjectSpans, Fits;
    ObjectSpansAre(c, pre, ms, inner, post);
    var raw := ObjectBytes(pre, ms, inner, post);
    var sp := ObjectSpans(c.unquote, raw).value;
    assert sp.order[i] == Name(c.unquote, ms[i]);
    if i > 0 {
      assert sp.order[i - 1] == Name(c.unquote, ms[i - 1]);
      RemovedMiddle(pre, ms, inner, post, i);
    } else if |ms| > 1 {
      assert sp.order[1] == Name(c.unquote, ms[1]);
      RemovedFirst(pre, ms, inner, post);
    } else {
      RemovedOnly(pre, ms, inner, post);
      assert Removed(ms, i) == [] by { RemovedNames(c.unquote, ms, i); }
    }
  }

  /** Which member of the original each remaining one is. */
  function Before(i: nat, j: nat): nat {
    if j < i then j else j + 1
  }

  lemma RemovedAt(ms: seq<Member>, i: nat)
    requires i < |ms|
    ensures |Removed(ms, i)| == |ms| - 1
    ensures forall j :: 0 <= j < |ms| - 1 ==> Removed(ms, i)[j].value == ms[Before(i, j)].value
    ensures forall j :: 0 <= j < |ms| - 1 ==> Removed(ms, i)[j].key == ms[Before(i, j)].key
  {
  }

  lemma RemovedName(u: Unquote, ms: seq<Member>, i: nat, j: nat)
    requires i < |ms| && j < |ms| - 1
    ensures |Removed(ms, i)| == |ms| - 1
    ensures Names(u, Removed(ms, i))[j] == (Names(u, ms)[..i] + Names(u, ms)[i + 1..])[j]
  {
    hide Name, Names, Removed;
    RemovedAt(ms, i);
    SameName(u, Removed(ms, i)[j], ms[Before(i, j)]);
    var names := Names(u, ms);
    assert names[Before(i, j)] == Name(u, ms[Before(i, j)]);
  }

  lemma RemovedNames(u: Unquote, ms: seq<Member>, i: nat)
    requires i < |ms|
    ensures Names(u, Removed(ms, i)) == Names(u, ms)[..i] + Names(u, ms)[i + 1..]
    ensures |Removed(ms, i)| == |ms| - 1
  {
    hide Name, Names, Removed;
    RemovedAt(ms, i);
    var r := Removed(ms, i);
    forall j | 0 <= j < |r| ensures Names(u, r)[j] == (Names(u, ms)[..i] + Names(u, ms)[i + 1..])[j] {
      RemovedName(u, ms, i, j);
    }
  }

  lemma SameName(u: Unquote, a: Member, b: Member)
    requires a.key == b.key
    ensures Name(u, a) == Name(u, b)
  {
  }

  lemma RemovedOk(ms: seq<Member>, inner: Bytes, i: nat)
    requires MembersOk(ms) && Blank(inner) && i < |ms|
    ensures MembersOk(Removed(ms, i)) && Blank(RemovedInner(ms, inner))
  {
    hide ValueOk, ItemsOk;
    assert MemberOk(ms[i]) && (i > 0 ==> MemberOk(ms[i - 1])) && (|ms| > 1 ==> MemberOk(ms[1]));
  }

  lemma RemovedDistinct(names: seq<string>, i: nat)
    requires i < |names| && Distinct(names)
    ensures Distinct(names[..i] + names[i + 1..])
  {
  }

  lemma RemovedStrict(c: Codec, pre: Bytes, ms: seq<Member>, inner: Bytes, post: Bytes, i: nat)
    requires StrictObject(c, pre, ms, inner, post) && i < |ms|
    ensures StrictObject(c, pre, Removed(ms, i), RemovedInner(ms, inner), post)
  {
    hide StrictObject, Strict, ValueOk, MembersOk, Names, Distinct, Removed, RemovedInner, Blank, Sound;
    ObjectFacts(c, pre, ms, inner, post);
    RemovedOk(ms, inner, i);
    RemovedAt(ms, i);
    RemovedNames(c.unquote, ms, i);
    RemovedDistinct(Names(c.unquote, ms), i);
    SoundOf(c, pre, ms, inner, post);
    ObjectFrom(c, pre, Removed(ms, i), RemovedInner(ms, inner), post);
  }

  /** Deleting a present member removes it with one separator and touches nothing else. */
  lemma DeletePresent(c: Codec, pre: Bytes, ms: seq<Member>, inner: Bytes, post: Bytes, i: nat)
    requires StrictObject(c, pre, ms, inner, post) && i < |ms| && c.validKey(Name(c.unquote, ms[i]))
    ensures DeleteMember(c, ObjectBytes(pre, ms, inner, post), Name(c.unquote, ms[i])) ==
              Some(ObjectBytes(pre, Removed(ms, i), RemovedInner(ms, inner), post))
  {
    hide ObjectBytes, Name, SpanOf, SpanMap, StrictObject, Removed, RemovedInner, Checked, ObjectSpans, Fits, Cut, Distinct;
    ObjectFacts(c, pre, ms, inner, post);
    ObjectSpansAre(c, pre, ms, inner, post);
    IndexOfName(c.unquote, ms, i);
    CutIs(c, pre, ms, inner, post, i);
    RemovedStrict(c, pre, ms, inner, post, i);
    CheckedObject(c, pre, Removed(ms, i), RemovedInner(ms, inner), post);
  }

  lemma DeleteAbsent(c: Codec, pre: Bytes, ms: seq<Member>, inner: Bytes, post: Bytes, key: string)
    requires StrictObject(c, pre, ms, inner, post) && c.validKey(key) && key !in Names(c.unquote, ms)
    ensures DeleteMember(c, ObjectBytes(pre, ms, inner, post), key) == Some(ObjectBytes(pre, ms, inner, post))
  {
    hide ObjectBytes, Name, SpanOf, SpanMap, StrictObject, ObjectSpans, Names;
    ObjectSpansAre(c, pre, ms, inner, post);
  }
}
