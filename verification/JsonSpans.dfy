/**
 Object members by position: parseObjectSpans and decodeObjectView
 (internal/engine/rawjson.go:452-463, 491-573). Decoding a member name is a parameter.
 */
module JsonSpans {
  import opened Wrappers
  import opened JsonText
  import opened JsonScan

  /** json.Unmarshal of a string literal. */
  type Unquote = Bytes -> Option<string>

  datatype Span = Span(keyStart: nat, sepStart: nat, valStart: nat, valEnd: nat)

  /** The span's positions are ordered and inside the text. */
  predicate Fits(sp: Span, raw: Bytes) {
    sp.sepStart <= sp.keyStart <= sp.valStart <= sp.valEnd <= |raw|
  }

  datatype Spans = Spans(order: seq<string>, spans: map<string, Span>, close: nat)

  /** One member from a position that is neither whitespace nor the closing brace. */
  function NextMember(unquote: Unquote, raw: Bytes, p: nat, first: bool): (r: Option<(string, Span)>)
    requires p <= |raw|
    ensures r.Some? ==> p < r.value.1.valEnd && Fits(r.value.1, raw)
  {
    if !first && (p >= |raw| || raw[p] != COMMA) then None
    else
      var keyStart := if first then p else SkipSpace(raw, p + 1);
      var keyEnd := StringEnd(raw, keyStart);
      if keyEnd.None? then None
      else
        var key := unquote(raw[keyStart..keyEnd.value]);
        var colon := SkipSpace(raw, keyEnd.value);
        if key.None? || colon >= |raw| || raw[colon] != COLON then None
        else
          var valStart := SkipSpace(raw, colon + 1);
          var valEnd := ValueEnd(raw, valStart);
          if valEnd.None? then None else Some((key.value, Span(keyStart, p, valStart, valEnd.value)))
  }

  /** The member loop, with what it has accumulated. */
  function ParseFrom(unquote: Unquote, raw: Bytes, p: nat, first: bool, order: seq<string>, spans: map<string, Span>)
    : (r: Option<Spans>)
    requires p <= |raw|
    ensures r.Some? ==> r.value.close < |raw|
    ensures r.Some? && (forall k :: k in spans ==> Fits(spans[k], raw)) ==>
              forall k :: k in r.value.spans ==> Fits(r.value.spans[k], raw)
    ensures r.Some? && (forall i :: 0 <= i < |order| ==> order[i] in spans) ==>
              forall i :: 0 <= i < |r.value.order| ==> r.value.order[i] in r.value.spans
    decreases |raw| - p
  {
    var q := SkipSpace(raw, p);
    if q < |raw| && raw[q] == RBRACE then Some(Spans(order, spans, q))
    else
      var m := NextMember(unquote, raw, q, first);
      if m.None? then None
      else ParseFrom(unquote, raw, m.value.1.valEnd, false, order + [m.value.0], spans[m.value.0 := m.value.1])
  }

  function ObjectSpans(unquote: Unquote, raw: Bytes): (r: Option<Spans>)
    ensures r.Some? ==> r.value.close < |raw|
    ensures r.Some? ==> forall k :: k in r.value.spans ==> Fits(r.value.spans[k], raw)
    ensures r.Some? ==> forall i :: 0 <= i < |r.value.order| ==> r.value.order[i] in r.value.spans
  {
    var p := SkipSpace(raw, 0);
    if p >= |raw| || raw[p] != LBRACE then None else ParseFrom(unquote, raw, p + 1, true, [], map[])
  }

  // ----- the spans of a grammatical object -----

  ghost predicate NamesDecode(unquote: Unquote, ms: seq<Member>) {
    forall i :: 0 <= i < |ms| ==> unquote(StringText(ms[i].key)).Some?
  }

  ghost function Name(unquote: Unquote, m: Member): string {
    var n := unquote(StringText(m.key));
    if n.Some? then n.value else ""
  }

  ghost function Names(unquote: Unquote, ms: seq<Member>): (names: seq<string>)
    ensures |names| == |ms| && forall i :: 0 <= i < |ms| ==> names[i] == Name(unquote, ms[i])
  {
    if ms == [] then [] else Names(unquote, ms[..|ms| - 1]) + [Name(unquote, ms[|ms| - 1])]
  }

  /** Where member `i` begins when the members begin at `b`. */
  ghost function MemberStart(ms: seq<Member>, i: nat, b: nat): nat
    requires i <= |ms|
  {
    b + |Left(ms[..i])|
  }

  ghost function SpanOf(ms: seq<Member>, i: nat, b: nat): Span
    requires i < |ms|
  {
    var s := MemberStart(ms, i, b);
    var keyStart, valStart := s + |ms[i].before|, s + |MemberHead(ms[i])|;
    Span(keyStart, if i == 0 then keyStart else s - 1, valStart, valStart + |Render(ms[i].value)|)
  }

  ghost function SpanMap(unquote: Unquote, ms: seq<Member>, i: nat, b: nat): map<string, Span>
    requires i <= |ms|
  {
    if i == 0 then map[] else SpanMap(unquote, ms, i - 1, b)[Name(unquote, ms[i - 1]) := SpanOf(ms, i - 1, b)]
  }

  /** The members of an object, followed by its closing brace, stand at `b`. */
  ghost predicate ObjectAt(raw: Bytes, b: nat, ms: seq<Member>) {
    ms != [] && MembersOk(ms) && At(raw, b, Members(ms) + [RBRACE])
  }

  lemma MemberAt(raw: Bytes, b: nat, ms: seq<Member>, i: nat)
    requires ObjectAt(raw, b, ms) && i < |ms|
    ensures var s, t := MemberStart(ms, i, b), MemberBytes(ms[i]);
            && At(raw, s, t)
            && s + |t| < |raw|
            && raw[s + |t|] == (if i + 1 < |ms| then COMMA else RBRACE)
            && (i + 1 < |ms| ==> MemberStart(ms, i + 1, b) == s + |t| + 1)
            && (i + 1 == |ms| ==> s + |t| == b + |Members(ms)|)
  {
    hide MemberBytes, Members;
    var left, t, right := Left(ms[..i]), MemberBytes(ms[i]), Right(ms[i + 1..]);
    MembersSplit(ms, i);
    AtSplit(raw, b, Members(ms), [RBRACE]);
    AtSplit(raw, b, left + t, right);
    AtSplit(raw, b, left, t);
    var end := b + |left| + |t|;
    if i + 1 < |ms| {
      assert ms[..i + 1] == ms[..i] + [ms[i]];
      LeftSnoc(ms[..i], ms[i]);
      assert raw[end + 0] == right[0];
    } else {
      assert raw[b + |Members(ms)| + 0] == [RBRACE][0];
    }
  }

  /** Every scan the member loop makes over a member of the grammar. */
  lemma MemberScans(raw: Bytes, s: nat, m: Member)
    requires MemberOk(m) && At(raw, s, MemberBytes(m))
    requires s + |MemberBytes(m)| < |raw| && EndsToken(raw[s + |MemberBytes(m)|])
    ensures var k := StringText(m.key);
            var keyStart, keyEnd := s + |m.before|, s + |m.before| + |k|;
            var colon, valStart := keyEnd + |m.keyGap|, s + |MemberHead(m)|;
            && keyEnd <= colon < |raw| && colon < valStart
            && SkipSpace(raw, s) == keyStart
            && StringEnd(raw, keyStart) == Some(keyEnd) && raw[keyStart..keyEnd] == k
            && SkipSpace(raw, keyEnd) == colon && raw[colon] == COLON
            && SkipSpace(raw, colon + 1) == valStart
            && ValueEnd(raw, valStart) == Some(valStart + |Render(m.value)|)
  {
    hide Render, StringText, ItemsBytes, StringEnd, ValueEnd, SkipSpace, ValueOk;
    var k := StringText(m.key);
    var keyStart := s + |m.before|;
    MemberParts(raw, s, m);
    KeyStarts(raw, keyStart, m.key);
    SkipBlank(raw, s, m.before);
    StringScanned(raw, keyStart, m.key);
    AtSlice(raw, keyStart, k);
    var colon := keyStart + |k| + |m.keyGap|;
    assert raw[colon + 0] == [COLON][0];
    SkipBlank(raw, keyStart + |k|, m.keyGap);
    var valStart := s + |MemberHead(m)|;
    ValueStarts(raw, valStart, m.value);
    SkipBlank(raw, colon + 1, m.valueGap);
    var valEnd := valStart + |Render(m.value)|;
    assert m.after != [] ==> raw[valEnd + 0] == m.after[0] && IsSpace(m.after[0]);
    ValueScanned(raw, valStart, m.value);
  }

  /** Reading one member of the grammar from the position of its separator, or of its key if it is the first. */
  lemma MemberRead(unquote: Unquote, raw: Bytes, s: nat, m: Member, p: nat, first: bool)
    requires MemberOk(m) && At(raw, s, MemberBytes(m)) && unquote(StringText(m.key)).Some?
    requires s + |MemberBytes(m)| < |raw| && EndsToken(raw[s + |MemberBytes(m)|])
    requires if first then p == s + |m.before| else p + 1 == s && raw[p] == COMMA
    ensures NextMember(unquote, raw, p, first) ==
              Some((Name(unquote, m), Span(s + |m.before|, p, s + |MemberHead(m)|, s + |MemberHead(m)| + |Render(m.value)|)))
  {
    hide Render, StringText, StringEnd, ValueEnd, SkipSpace, MemberHead, MemberBytes, MemberOk, At;
    MemberScans(raw, s, m);
  }

  lemma KeyStarts(raw: Bytes, p: nat, items: seq<Item>)
    requires At(raw, p, StringText(items))
    ensures p < |raw| && !IsSpace(raw[p]) && raw[p] != RBRACE
  {
    assert raw[p + 0] == StringText(items)[0];
  }

  lemma ValueStarts(raw: Bytes, p: nat, v: Value)
    requires ValueOk(v) && At(raw, p, Render(v))
    ensures p < |raw| && !IsSpace(raw[p])
  {
    ValueEdges(v);
    assert raw[p + 0] == Render(v)[0];
  }

  /** The position the member loop is at before it reads member `i`. */
  ghost function LoopAt(ms: seq<Member>, i: nat, b: nat): nat
    requires i <= |ms|
  {
    if i == 0 then b else SpanOf(ms, i - 1, b).valEnd
  }

  /** What the loop sees before member `i`, or at the end. */
  ghost predicate LoopSees(raw: Bytes, b: nat, ms: seq<Member>, i: nat)
    requires i <= |ms|
  {
    && LoopAt(ms, i, b) <= |raw|
    && var q := SkipSpace(raw, LoopAt(ms, i, b));
       && q < |raw|
       && (i == |ms| && ms != [] ==> q == b + |Members(ms)|)
       && (i < |ms| ==> q == SpanOf(ms, i, b).sepStart)
       && (raw[q] == RBRACE <==> i == |ms|)
       && (0 < i < |ms| ==> raw[q] == COMMA)
  }

  lemma LoopFirst(raw: Bytes, b: nat, ms: seq<Member>)
    requires ObjectAt(raw, b, ms)
    ensures LoopSees(raw, b, ms, 0)
  {
    hide SkipSpace, Members, MemberBytes, StringText, Render, At;
    MemberAt(raw, b, ms, 0);
    assert ms[..0] == [];
    ReadHead(raw, b, ms[0]);
  }

  lemma LoopNext(raw: Bytes, b: nat, ms: seq<Member>, i: nat)
    requires ObjectAt(raw, b, ms) && 0 < i <= |ms|
    ensures LoopSees(raw, b, ms, i)
  {
    hide SkipSpace, Members, MemberBytes, StringText, Render, At, MemberStart, MemberHead;
    MemberAt(raw, b, ms, i - 1);
    ReadTail(raw, MemberStart(ms, i - 1, b), ms[i - 1]);
  }

  /** Before member `i` the loop skips to its key or separator; after the last one, to the brace. */
  lemma LoopSkips(raw: Bytes, b: nat, ms: seq<Member>, i: nat)
    requires ObjectAt(raw, b, ms) && i <= |ms|
    ensures LoopSees(raw, b, ms, i)
  {
    if i == 0 { LoopFirst(raw, b, ms); } else { LoopNext(raw, b, ms, i); }
  }

  lemma ReadHead(raw: Bytes, s: nat, m: Member)
    requires MemberOk(m) && At(raw, s, MemberBytes(m))
    ensures s <= |raw|
    ensures SkipSpace(raw, s) == s + |m.before| < |raw| && raw[s + |m.before|] != RBRACE
  {
    MemberParts(raw, s, m);
    KeyStarts(raw, s + |m.before|, m.key);
    SkipBlank(raw, s, m.before);
  }

  lemma ReadTail(raw: Bytes, s: nat, m: Member)
    requires MemberOk(m) && At(raw, s, MemberBytes(m)) && s + |MemberBytes(m)| < |raw|
    requires !IsSpace(raw[s + |MemberBytes(m)|])
    ensures s + |MemberHead(m)| + |Render(m.value)| <= s + |MemberBytes(m)|
    ensures SkipSpace(raw, s + |MemberHead(m)| + |Render(m.value)|) == s + |MemberBytes(m)|
  {
    hide StringText, Render;
    MemberParts(raw, s, m);
    SkipBlank(raw, s + |MemberHead(m)| + |Render(m.value)|, m.after);
  }

  /** Reading member `i` where the loop finds it. */
  lemma MemberFound(unquote: Unquote, raw: Bytes, b: nat, ms: seq<Member>, i: nat)
    requires ObjectAt(raw, b, ms) && NamesDecode(unquote, ms) && i < |ms|
    ensures SpanOf(ms, i, b).sepStart <= |raw|
    ensures NextMember(unquote, raw, SpanOf(ms, i, b).sepStart, i == 0) == Some((Name(unquote, ms[i]), SpanOf(ms, i, b)))
  {
    hide SkipSpace, Members, MemberBytes, StringText, Render, NextMember, Name, At, Left, MemberHead;
    LoopSkips(raw, b, ms, i);
    MemberAt(raw, b, ms, i);
    MemberRead(unquote, raw, MemberStart(ms, i, b), ms[i], SpanOf(ms, i, b).sepStart, i == 0);
  }

  lemma NamesSnoc(unquote: Unquote, ms: seq<Member>, i: nat)
    requires i < |ms|
    ensures Names(unquote, ms[..i + 1]) == Names(unquote, ms[..i]) + [Name(unquote, ms[i])]
  {
    hide Name;
    assert ms[..i + 1][..i] == ms[..i];
  }

  lemma {:induction false} MembersRead(unquote: Unquote, raw: Bytes, b: nat, ms: seq<Member>, i: nat)
    requires ObjectAt(raw, b, ms) && NamesDecode(unquote, ms) && i <= |ms|
    requires LoopAt(ms, i, b) <= |raw|
    ensures ParseFrom(unquote, raw, LoopAt(ms, i, b), i == 0, Names(unquote, ms[..i]), SpanMap(unquote, ms, i, b)) ==
              Some(Spans(Names(unquote, ms), SpanMap(unquote, ms, |ms|, b), b + |Members(ms)|))
    decreases |ms| - i
  {
    hide SkipSpace, Members, NextMember, Name, SpanOf, Names, ObjectAt, NamesDecode;
    LoopSkips(raw, b, ms, i);
    if i == |ms| {
      HasMembers(raw, b, ms);
      assert ms[..i] == ms;
    } else {
      MemberFound(unquote, raw, b, ms, i);
      NamesSnoc(unquote, ms, i);
      LoopSkips(raw, b, ms, i + 1);
      MembersRead(unquote, raw, b, ms, i + 1);
    }
  }

  lemma HasMembers(raw: Bytes, b: nat, ms: seq<Member>)
    requires ObjectAt(raw, b, ms)
    ensures ms != []
  {
  }

  /** Where the braces of an object and the bytes between them stand. */
  lemma Braced(pre: Bytes, body: Bytes, post: Bytes)
    ensures var raw := pre + ([LBRACE] + body + [RBRACE]) + post;
            && At(raw, 0, pre) && |pre| < |raw| && raw[|pre|] == LBRACE
            && At(raw, |pre| + 1, body + [RBRACE])
            && At(raw, |pre| + 1, body)
            && |pre| + 1 + |body| < |raw| && raw[|pre| + 1 + |body|] == RBRACE
  {
    var raw := pre + ([LBRACE] + body + [RBRACE]) + post;
    assert raw == pre + ([LBRACE] + ((body + [RBRACE]) + post));
    AtSplit(raw, 0, pre, [LBRACE] + ((body + [RBRACE]) + post));
    AtSplit(raw, |pre|, [LBRACE], (body + [RBRACE]) + post);
    AtSplit(raw, |pre| + 1, body + [RBRACE], post);
    AtSplit(raw, |pre| + 1, body, [RBRACE]);
    assert At(raw, 0, raw);
  }

  lemma ObjectStands(pre: Bytes, ms: seq<Member>, inner: Bytes, post: Bytes)
    requires ms != [] && ValueOk(Object(ms, inner))
    ensures ObjectAt(pre + Render(Object(ms, inner)) + post, |pre| + 1, ms)
  {
    hide Members;
    Braced(pre, Members(ms), post);
  }

  /** The scan enters an object at its opening brace. */
  lemma ObjectEntered(unquote: Unquote, pre: Bytes, v: Value, post: Bytes)
    requires Blank(pre) && v.Object?
    ensures var raw := pre + Render(v) + post;
            && |pre| + 1 <= |raw|
            && ObjectSpans(unquote, raw) == ParseFrom(unquote, raw, |pre| + 1, true, [], map[])
  {
    hide SkipSpace, Members, ParseFrom;
    Braced(pre, Inside(v), post);
    SkipBlank(pre + Render(v) + post, 0, pre);
  }

  lemma EmptyObjectRead(unquote: Unquote, pre: Bytes, inner: Bytes, post: Bytes)
    requires Blank(pre) && Blank(inner)
    ensures ObjectSpans(unquote, pre + Render(Object([], inner)) + post) ==
              Some(Spans([], map[], |pre| + |Render(Object([], inner))| - 1))
  {
    hide SkipSpace, NextMember, At;
    var raw := pre + Render(Object([], inner)) + post;
    ObjectEntered(unquote, pre, Object([], inner), post);
    Braced(pre, inner, post);
    SkipBlank(raw, |pre| + 1, inner);
  }

  /**
   Every object text of the grammar - any nesting, any escapes, any whitespace, any member
   count - is read as exactly its members, in order, and the closing index is its own brace.
   */
  lemma ObjectRead(unquote: Unquote, pre: Bytes, ms: seq<Member>, inner: Bytes, post: Bytes)
    requires Blank(pre) && ValueOk(Object(ms, inner)) && NamesDecode(unquote, ms)
    ensures var raw := pre + Render(Object(ms, inner)) + post;
            ObjectSpans(unquote, raw) ==
              Some(Spans(Names(unquote, ms), SpanMap(unquote, ms, |ms|, |pre| + 1), |pre| + |Render(Object(ms, inner))| - 1))
  {
    hide *;
    NothingRead(unquote, ms, inner, |pre| + 1);
    if ms == [] {
      InnerBlank(inner);
      EmptyObjectRead(unquote, pre, inner, post);
    } else {
      ObjectEntered(unquote, pre, Object(ms, inner), post);
      ObjectStands(pre, ms, inner, post);
      MembersRead(unquote, pre + Render(Object(ms, inner)) + post, |pre| + 1, ms, 0);
    }
  }

  lemma InnerBlank(inner: Bytes)
    requires ValueOk(Object([], inner))
    ensures Blank(inner)
  {
  }

  /** The loop's state before the first member. */
  lemma NothingRead(unquote: Unquote, ms: seq<Member>, inner: Bytes, b: nat)
    ensures Names(unquote, ms[..0]) == [] && SpanMap(unquote, ms, 0, b) == map[] && LoopAt(ms, 0, b) == b
    ensures ms == [] ==> Names(unquote, ms) == []
    ensures ms != [] ==> |Members(ms)| + 2 == |Render(Object(ms, inner))|
    ensures |Render(Object(ms, inner))| >= 2
  {
    hide Members;
  }

  // ----- what the spans cover -----

  ghost predicate Distinct(names: seq<string>) {
    forall i, j :: 0 <= i < j < |names| ==> names[i] != names[j]
  }

  lemma {:induction false} SpanMapHas(unquote: Unquote, ms: seq<Member>, n: nat, b: nat)
    requires n <= |ms| && Distinct(Names(unquote, ms))
    ensures forall i :: 0 <= i < n ==>
              && Name(unquote, ms[i]) in SpanMap(unquote, ms, n, b)
              && SpanMap(unquote, ms, n, b)[Name(unquote, ms[i])] == SpanOf(ms, i, b)
    ensures forall k :: k in SpanMap(unquote, ms, n, b) ==> exists i :: 0 <= i < n && Name(unquote, ms[i]) == k
  {
    hide Name, SpanOf;
    if n > 0 {
      SpanMapHas(unquote, ms, n - 1, b);
      var names := Names(unquote, ms);
      assert forall i :: 0 <= i < n - 1 ==> names[i] != names[n - 1];
    }
  }

  /** Each span covers exactly its member's name and value, and the spans follow one another. */
  lemma SpansCover(raw: Bytes, b: nat, ms: seq<Member>, i: nat)
    requires ObjectAt(raw, b, ms) && i < |ms|
    ensures var sp := SpanOf(ms, i, b);
            && sp.sepStart <= sp.keyStart && sp.keyStart + |StringText(ms[i].key)| < sp.valStart <= sp.valEnd <= |raw|
            && raw[sp.keyStart..sp.keyStart + |StringText(ms[i].key)|] == StringText(ms[i].key)
            && raw[sp.valStart..sp.valEnd] == Render(ms[i].value)
            && (i + 1 < |ms| ==> sp.valEnd <= SpanOf(ms, i + 1, b).sepStart)
            && (i + 1 == |ms| ==> sp.valEnd <= b + |Members(ms)|)
  {
    hide StringText, Render, Members, Left;
    MemberAt(raw, b, ms, i);
    var s := MemberStart(ms, i, b);
    MemberParts(raw, s, ms[i]);
    AtSlice(raw, s + |ms[i].before|, StringText(ms[i].key));
    AtSlice(raw, s + |MemberHead(ms[i])|, Render(ms[i].value));
  }

  /** decodeObjectView: the member names in order and the exact bytes of each value. */
  function ObjectView(unquote: Unquote, raw: Bytes): Option<(seq<string>, map<string, Bytes>)> {
    var sp := ObjectSpans(unquote, raw);
    if sp.None? then None
    else Some((sp.value.order,
               map k | k in sp.value.spans :: raw[sp.value.spans[k].valStart..sp.value.spans[k].valEnd]))
  }

  ghost function Lexemes(unquote: Unquote, ms: seq<Member>): map<string, Bytes> {
    if ms == [] then map[]
    else Lexemes(unquote, ms[..|ms| - 1])[Name(unquote, ms[|ms| - 1]) := Render(ms[|ms| - 1].value)]
  }

  lemma {:induction false} LexemesAre(unquote: Unquote, ms: seq<Member>)
    requires Distinct(Names(unquote, ms))
    ensures forall i :: 0 <= i < |ms| ==>
              Name(unquote, ms[i]) in Lexemes(unquote, ms) && Lexemes(unquote, ms)[Name(unquote, ms[i])] == Render(ms[i].value)
    ensures forall k :: k in Lexemes(unquote, ms) ==> exists i :: 0 <= i < |ms| && Name(unquote, ms[i]) == k
  {
    hide Name, Render;
    if ms != [] {
      var init := ms[..|ms| - 1];
      var names := Names(unquote, ms);
      assert forall i :: 0 <= i < |init| ==> init[i] == ms[i] && Names(unquote, init)[i] == names[i];
      LexemesAre(unquote, init);
      assert forall i :: 0 <= i < |init| ==> names[i] != names[|ms| - 1];
      forall k | k in Lexemes(unquote, ms) ensures exists i :: 0 <= i < |ms| && Name(unquote, ms[i]) == k {
        if k in Lexemes(unquote, init) {
          var i :| 0 <= i < |init| && Name(unquote, init[i]) == k;
          assert Name(unquote, ms[i]) == k;
        } else {
          assert Name(unquote, ms[|ms| - 1]) == k;
        }
      }
    }
  }

  /** Two finite maps that agree at the listed keys, and have no others, are equal. */
  lemma SameMap(names: seq<string>, a: map<string, Bytes>, b: map<string, Bytes>)
    requires forall i :: 0 <= i < |names| ==> names[i] in a && names[i] in b && a[names[i]] == b[names[i]]
    requires forall k :: k in a ==> k in names
    requires forall k :: k in b ==> k in names
    ensures a == b
  {
    assert forall k :: k in a <==> k in b;
  }

  /** At every member name the view and the member's lexeme agree. */
  lemma ViewAt(unquote: Unquote, pre: Bytes, ms: seq<Member>, inner: Bytes, post: Bytes, i: nat)
    requires Blank(pre) && ValueOk(Object(ms, inner)) && NamesDecode(unquote, ms) && Distinct(Names(unquote, ms))
    requires i < |ms|
    ensures var view := ObjectView(unquote, pre + Render(Object(ms, inner)) + post);
            && view.Some? && Name(unquote, ms[i]) in view.value.1
            && view.value.1[Name(unquote, ms[i])] == Render(ms[i].value)
  {
    hide ObjectSpans, Render, Name, SpanOf, StringText, SpanMap, NamesDecode, Distinct, Names, ObjectAt;
    ObjectRead(unquote, pre, ms, inner, post);
    SpanMapHas(unquote, ms, |ms|, |pre| + 1);
    ObjectStands(pre, ms, inner, post);
    SpansCover(pre + Render(Object(ms, inner)) + post, |pre| + 1, ms, i);
  }

  /** The view lists the member names in order and has no other name. */
  lemma ViewNames(unquote: Unquote, pre: Bytes, ms: seq<Member>, inner: Bytes, post: Bytes)
    requires Blank(pre) && ValueOk(Object(ms, inner)) && NamesDecode(unquote, ms) && Distinct(Names(unquote, ms))
    ensures var view := ObjectView(unquote, pre + Render(Object(ms, inner)) + post);
            && view.Some? && view.value.0 == Names(unquote, ms)
            && forall k :: k in view.value.1 ==> k in Names(unquote, ms)
  {
    hide ObjectSpans, Render, Name, SpanOf, SpanMap, NamesDecode, Distinct, ValueOk, Blank;
    ObjectRead(unquote, pre, ms, inner, post);
    SpanMapHas(unquote, ms, |ms|, |pre| + 1);
  }

  /** The decoded view of a grammatical object is its member names in order, each with its own lexeme. */
  lemma ViewRead(unquote: Unquote, pre: Bytes, ms: seq<Member>, inner: Bytes, post: Bytes)
    requires Blank(pre) && ValueOk(Object(ms, inner)) && NamesDecode(unquote, ms) && Distinct(Names(unquote, ms))
    ensures ObjectView(unquote, pre + Render(Object(ms, inner)) + post) == Some((Names(unquote, ms), Lexemes(unquote, ms)))
  {
    hide ObjectView, Render, Name, Lexemes, NamesDecode, Distinct, ValueOk, Blank;
    var raw, names := pre + Render(Object(ms, inner)) + post, Names(unquote, ms);
    ViewNames(unquote, pre, ms, inner, post);
    LexemesAre(unquote, ms);
    var view := ObjectView(unquote, raw).value.1;
    forall i | 0 <= i < |names|
      ensures names[i] in view && names[i] in Lexemes(unquote, ms) && view[names[i]] == Lexemes(unquote, ms)[names[i]]
    {
      ViewAt(unquote, pre, ms, inner, post, i);
    }
    SameMap(names, view, Lexemes(unquote, ms));
  }

  // ----- the member loop -----

  method ReadMember(unquote: Unquote, raw: Bytes, start: nat, first: bool) returns (member: Option<(string, Span)>)
    requires start <= |raw|
    ensures member == NextMember(unquote, raw, start, first)
  {
    hide SkipSpace, StringEnd, ValueEnd, Fits;
    var p := start;
    if !first {
      if p >= |raw| || raw[p] != COMMA {
        return None;
      }
      p := SkipSpaces(raw, p + 1);
    }
    var keyStart := p;
    var keyEnd := ScanStringEnd(raw, p);
    if keyEnd.None? {
      return None;
    }
    var key := unquote(raw[keyStart..keyEnd.value]);
    if key.None? {
      return None;
    }
    p := SkipSpaces(raw, keyEnd.value);
    if p >= |raw| || raw[p] != COLON {
      return None;
    }
    p := SkipSpaces(raw, p + 1);
    var valEnd := ScanValueEnd(raw, p);
    if valEnd.None? {
      return None;
    }
    return Some((key.value, Span(keyStart, start, p, valEnd.value)));
  }

  method ParseObjectSpans(unquote: Unquote, raw: Bytes) returns (result: Option<Spans>)
    ensures result == ObjectSpans(unquote, raw)
  {
    var p := SkipSpaces(raw, 0);
    if p >= |raw| || raw[p] != LBRACE {
      return None;
    }
    p := p + 1;
    var order: seq<string>, spans: map<string, Span>, first := [], map[], true;
    while true
      invariant p <= |raw|
      invariant ParseFrom(unquote, raw, p, first, order, spans) == ObjectSpans(unquote, raw)
      decreases |raw| - p
    {
      var q := SkipSpaces(raw, p);
      if q < |raw| && raw[q] == RBRACE {
        return Some(Spans(order, spans, q));
      }
      var member := ReadMember(unquote, raw, q, first);
      if member.None? {
        return None;
      }
      spans := spans[member.value.0 := member.value.1];
      order := order + [member.value.0];
      p, first := member.value.1.valEnd, false;
    }
  }
}
