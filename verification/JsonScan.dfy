/**
 The structural scanner of internal/engine/rawjson.go:503-627: index loops that find where
 strings, values and object members end, without decoding them.

 Each loop is a method proved against a recursive function of the same positions, and the
 functions are proved to find exactly the boundaries the grammar put there.
 */
module JsonScan {
  import opened Wrappers
  import opened JsonText

  // ----- the scanning functions -----

  function SkipSpace(raw: Bytes, p: nat): (q: nat)
    requires p <= |raw|
    ensures p <= q <= |raw|
    decreases |raw| - p
  {
    if p < |raw| && IsSpace(raw[p]) then SkipSpace(raw, p + 1) else p
  }

  /** The position after the closing quote of a string whose body starts at `p`. */
  function BodyEnd(raw: Bytes, p: nat): (r: Option<nat>)
    ensures r.Some? ==> p < r.value <= |raw|
    decreases if p < |raw| then |raw| - p else 0
  {
    if p >= |raw| then None
    else if raw[p] == BACKSLASH then BodyEnd(raw, p + 2)
    else if raw[p] == QUOTE then Some(p + 1)
    else BodyEnd(raw, p + 1)
  }

  function StringEnd(raw: Bytes, start: nat): (r: Option<nat>)
    ensures r.Some? ==> start + 1 < r.value <= |raw|
  {
    if start >= |raw| || raw[start] != QUOTE then None else BodyEnd(raw, start + 1)
  }

  predicate EndsToken(b: byte) {
    b == COMMA || b == RBRACE || b == RBRACKET || IsSpace(b)
  }

  function TokenEnd(raw: Bytes, p: nat): (q: nat)
    requires p <= |raw|
    ensures p <= q <= |raw|
    decreases |raw| - p
  {
    if p < |raw| && !EndsToken(raw[p]) then TokenEnd(raw, p + 1) else p
  }

  /** The position after the bracket that brings the depth back to zero, from `p` on at depth `depth`. */
  function CompositeEnd(raw: Bytes, p: nat, depth: int): (r: Option<nat>)
    ensures r.Some? ==> p < r.value <= |raw|
    decreases if p < |raw| then |raw| - p else 0
  {
    if p >= |raw| then None
    else if raw[p] == QUOTE then
      var end := StringEnd(raw, p);
      if end.None? then None else CompositeEnd(raw, end.value, depth)
    else if raw[p] == LBRACE || raw[p] == LBRACKET then CompositeEnd(raw, p + 1, depth + 1)
    else if raw[p] == RBRACE || raw[p] == RBRACKET then
      if depth - 1 == 0 then Some(p + 1) else CompositeEnd(raw, p + 1, depth - 1)
    else CompositeEnd(raw, p + 1, depth)
  }

  function ValueEnd(raw: Bytes, start: nat): (r: Option<nat>)
    ensures r.Some? ==> start <= r.value <= |raw|
  {
    if start >= |raw| then None
    else if raw[start] == QUOTE then StringEnd(raw, start)
    else if raw[start] != LBRACE && raw[start] != LBRACKET then Some(TokenEnd(raw, start))
    else CompositeEnd(raw, start, 0)
  }

  // ----- text at a position -----

  /** The bytes `t` stand in `raw` at position `p`. */
  ghost predicate At(raw: Bytes, p: nat, t: Bytes) {
    p + |t| <= |raw| && forall i :: 0 <= i < |t| ==> raw[p + i] == t[i]
  }

  lemma AtSplit(raw: Bytes, p: nat, s: Bytes, t: Bytes)
    ensures At(raw, p, s + t) <==> At(raw, p, s) && At(raw, p + |s|, t)
  {
    if At(raw, p, s + t) {
      forall i | 0 <= i < |s| ensures raw[p + i] == s[i] { assert (s + t)[i] == s[i]; }
      forall i | 0 <= i < |t| ensures raw[p + |s| + i] == t[i] { assert (s + t)[|s| + i] == t[i]; }
    }
    if At(raw, p, s) && At(raw, p + |s|, t) {
      forall i | 0 <= i < |s + t| ensures raw[p + i] == (s + t)[i] {
        if i >= |s| { assert t[i - |s|] == raw[p + |s| + (i - |s|)]; }
      }
    }
  }

  lemma AtSlice(raw: Bytes, p: nat, t: Bytes)
    requires p + |t| <= |raw|
    ensures At(raw, p, t) <==> raw[p..p + |t|] == t
  {
    if raw[p..p + |t|] == t {
      forall i | 0 <= i < |t| ensures raw[p + i] == t[i] { assert raw[p..p + |t|][i] == t[i]; }
    }
  }

  // ----- the scanner finds the grammar's boundaries -----

  lemma {:induction false} SkipBlank(raw: Bytes, p: nat, ws: Bytes)
    requires At(raw, p, ws) && Blank(ws)
    requires p + |ws| < |raw| ==> !IsSpace(raw[p + |ws|])
    ensures SkipSpace(raw, p) == p + |ws|
    decreases |ws|
  {
    if ws != [] {
      assert raw[p] == ws[0];
      assert At(raw, p + 1, ws[1..]) by {
        forall i | 0 <= i < |ws[1..]| ensures raw[p + 1 + i] == ws[1..][i] { assert ws[1..][i] == ws[1 + i]; assert raw[p + (1 + i)] == ws[1 + i]; }
      }
      SkipBlank(raw, p + 1, ws[1..]);
    }
  }

  /** One string item never ends the string. */
  lemma ItemSkipped(raw: Bytes, p: nat, item: Item)
    requires ItemOk(item) && At(raw, p, ItemBytes(item))
    ensures BodyEnd(raw, p) == BodyEnd(raw, p + |ItemBytes(item)|)
  {
    var bs := ItemBytes(item);
    assert raw[p] == bs[0];
    match item {
      case Plain(_) =>
      case Escape(_) => assert raw[p + 1] == bs[1];
      case Unicode(_, _, _, _) =>
        assert raw[p + 2] == bs[2] && raw[p + 3] == bs[3] && raw[p + 4] == bs[4] && raw[p + 5] == bs[5];
        assert BodyEnd(raw, p) == BodyEnd(raw, p + 2) == BodyEnd(raw, p + 3);
        assert BodyEnd(raw, p + 3) == BodyEnd(raw, p + 4) == BodyEnd(raw, p + 5);
    }
  }

  lemma {:induction false} BodyScanned(raw: Bytes, p: nat, items: seq<Item>)
    requires ItemsOk(items) && At(raw, p, ItemsBytes(items) + [QUOTE])
    ensures BodyEnd(raw, p) == Some(p + |ItemsBytes(items)| + 1)
    decreases |items|
  {
    var all := ItemsBytes(items) + [QUOTE];
    if items == [] {
      assert all == [QUOTE];
      assert raw[p] == all[0];
    } else {
      var first, rest := ItemBytes(items[0]), ItemsBytes(items[1..]);
      assert all == first + (rest + [QUOTE]);
      AtSplit(raw, p, first, rest + [QUOTE]);
      ItemSkipped(raw, p, items[0]);
      BodyScanned(raw, p + |first|, items[1..]);
    }
  }

  /** A string ends where the grammar ends it, whatever it escapes. */
  lemma StringScanned(raw: Bytes, p: nat, items: seq<Item>)
    requires ItemsOk(items) && At(raw, p, StringText(items))
    ensures StringEnd(raw, p) == Some(p + |StringText(items)|)
  {
    assert StringText(items) == [QUOTE] + (ItemsBytes(items) + [QUOTE]);
    AtSplit(raw, p, [QUOTE], ItemsBytes(items) + [QUOTE]);
    assert raw[p + 0] == [QUOTE][0];
    BodyScanned(raw, p + 1, items);
  }

  predicate Neutral(b: byte) {
    b != QUOTE && b != LBRACE && b != RBRACE && b != LBRACKET && b != RBRACKET
  }

  lemma {:induction false} NeutralSkipped(raw: Bytes, p: nat, bs: Bytes, depth: int)
    requires At(raw, p, bs) && forall i :: 0 <= i < |bs| ==> Neutral(bs[i])
    ensures CompositeEnd(raw, p, depth) == CompositeEnd(raw, p + |bs|, depth)
    decreases |bs|
  {
    if bs != [] {
      assert raw[p + 0] == bs[0];
      assert bs == [bs[0]] + bs[1..];
      AtSplit(raw, p, [bs[0]], bs[1..]);
      NeutralSkipped(raw, p + 1, bs[1..], depth);
    }
  }

  lemma StringSkipped(raw: Bytes, p: nat, items: seq<Item>, depth: int)
    requires ItemsOk(items) && At(raw, p, StringText(items))
    ensures CompositeEnd(raw, p, depth) == CompositeEnd(raw, p + |StringText(items)|, depth)
  {
    StringScanned(raw, p, items);
    assert raw[p + 0] == StringText(items)[0] == QUOTE;
  }

  /** A whole value, scanned inside a composite, leaves the depth as it was. */
  lemma {:induction false} ValueSkipped(raw: Bytes, p: nat, v: Value, depth: int)
    requires ValueOk(v) && At(raw, p, Render(v)) && depth >= 1
    ensures CompositeEnd(raw, p, depth) == CompositeEnd(raw, p + |Render(v)|, depth)
    decreases v, 2
  {
    match v {
      case Text(items) => StringSkipped(raw, p, items, depth);
      case Token(bytes) => NeutralSkipped(raw, p, bytes, depth);
      case Array(_, _) => BodySkipped(raw, p, v, depth);
      case Object(_, _) => BodySkipped(raw, p, v, depth);
    }
  }

  /** The inside of an array or object, as bytes. */
  function Inside(v: Value): Bytes
    requires v.Array? || v.Object?
  {
    if v.Array? then (if v.elems == [] then v.inner else Elems(v.elems))
    else (if v.members == [] then v.inner else Members(v.members))
  }

  /** From just inside a composite the scan reaches its closing bracket at the depth it entered with. */
  lemma {:induction false} InsideSkipped(raw: Bytes, p: nat, v: Value, depth: int)
    requires ValueOk(v) && (v.Array? || v.Object?) && At(raw, p, Inside(v)) && depth >= 1
    ensures CompositeEnd(raw, p, depth) == CompositeEnd(raw, p + |Inside(v)|, depth)
    decreases v, 0
  {
    if v.Array? {
      if v.elems == [] { NeutralSkipped(raw, p, v.inner, depth); } else { ElemsSkipped(raw, p, v.elems, depth); }
    } else {
      if v.members == [] { NeutralSkipped(raw, p, v.inner, depth); } else { MembersSkipped(raw, p, v.members, depth); }
    }
  }

  lemma {:induction false} BodySkipped(raw: Bytes, p: nat, v: Value, depth: int)
    requires ValueOk(v) && (v.Array? || v.Object?) && At(raw, p, Render(v)) && depth >= 0
    ensures CompositeEnd(raw, p, depth) ==
              if depth == 0 then Some(p + |Render(v)|) else CompositeEnd(raw, p + |Render(v)|, depth)
    decreases v, 1
  {
    var open, close := if v.Array? then LBRACKET else LBRACE, if v.Array? then RBRACKET else RBRACE;
    var inside := Inside(v);
    assert Render(v) == [open] + (inside + [close]);
    AtSplit(raw, p, [open], inside + [close]);
    AtSplit(raw, p + 1, inside, [close]);
    assert raw[p + 0] == [open][0];
    InsideSkipped(raw, p + 1, v, depth + 1);
    var q := p + 1 + |inside|;
    assert raw[q + 0] == [close][0];
  }

  lemma {:induction false} ElemSkipped(raw: Bytes, p: nat, e: Elem, depth: int)
    requires ElemOk(e) && At(raw, p, e.before + Render(e.value) + e.after) && depth >= 1
    ensures CompositeEnd(raw, p, depth) == CompositeEnd(raw, p + |e.before| + |Render(e.value)| + |e.after|, depth)
    decreases e, 0
  {
    hide CompositeEnd, Render;
    var text := Render(e.value);
    AtSplit(raw, p, e.before + text, e.after);
    AtSplit(raw, p, e.before, text);
    NeutralSkipped(raw, p, e.before, depth);
    ValueSkipped(raw, p + |e.before|, e.value, depth);
    NeutralSkipped(raw, p + |e.before| + |text|, e.after, depth);
  }

  lemma {:induction false} ElemsSkipped(raw: Bytes, p: nat, es: seq<Elem>, depth: int)
    requires es != [] && (forall i :: 0 <= i < |es| ==> ElemOk(es[i])) && At(raw, p, Elems(es)) && depth >= 1
    ensures CompositeEnd(raw, p, depth) == CompositeEnd(raw, p + |Elems(es)|, depth)
    decreases es, 1
  {
    hide CompositeEnd, Render;
    var e := es[0];
    var first := e.before + Render(e.value) + e.after;
    if |es| == 1 {
      ElemSkipped(raw, p, e, depth);
    } else {
      AtSplit(raw, p, first, [COMMA] + Elems(es[1..]));
      AtSplit(raw, p + |first|, [COMMA], Elems(es[1..]));
      ElemSkipped(raw, p, e, depth);
      NeutralSkipped(raw, p + |first|, [COMMA], depth);
      ElemsSkipped(raw, p + |first| + 1, es[1..], depth);
    }
  }

  lemma {:induction false} MembersSkipped(raw: Bytes, p: nat, ms: seq<Member>, depth: int)
    requires ms != [] && MembersOk(ms) && At(raw, p, Members(ms)) && depth >= 1
    ensures CompositeEnd(raw, p, depth) == CompositeEnd(raw, p + |Members(ms)|, depth)
    decreases ms, 1
  {
    hide CompositeEnd, MemberBytes;
    var first := MemberBytes(ms[0]);
    if |ms| > 1 {
      AtSplit(raw, p, first, [COMMA] + Members(ms[1..]));
      AtSplit(raw, p + |first|, [COMMA], Members(ms[1..]));
    }
    MemberSkipped(raw, p, ms[0], depth);
    if |ms| > 1 {
      NeutralSkipped(raw, p + |first|, [COMMA], depth);
      MembersSkipped(raw, p + |first| + 1, ms[1..], depth);
    }
  }

  /** Where the parts of a member stand. */
  lemma MemberParts(raw: Bytes, p: nat, m: Member)
    requires At(raw, p, MemberBytes(m))
    ensures At(raw, p, m.before)
    ensures At(raw, p + |m.before|, StringText(m.key))
    ensures At(raw, p + |m.before| + |StringText(m.key)|, m.keyGap)
    ensures At(raw, p + |m.before| + |StringText(m.key)| + |m.keyGap|, [COLON])
    ensures At(raw, p + |m.before| + |StringText(m.key)| + |m.keyGap| + 1, m.valueGap)
    ensures At(raw, p + |MemberHead(m)|, Render(m.value))
    ensures At(raw, p + |MemberHead(m)| + |Render(m.value)|, m.after)
  {
    var k := StringText(m.key);
    AtSplit(raw, p, MemberHead(m) + Render(m.value), m.after);
    AtSplit(raw, p, MemberHead(m), Render(m.value));
    AtSplit(raw, p, m.before + k + m.keyGap + [COLON], m.valueGap);
    AtSplit(raw, p, m.before + k + m.keyGap, [COLON]);
    AtSplit(raw, p, m.before + k, m.keyGap);
    AtSplit(raw, p, m.before, k);
  }

  lemma {:induction false} MemberSkipped(raw: Bytes, p: nat, m: Member, depth: int)
    requires MemberOk(m) && At(raw, p, MemberBytes(m)) && depth >= 1
    ensures CompositeEnd(raw, p, depth) == CompositeEnd(raw, p + |MemberBytes(m)|, depth)
    decreases m, 0
  {
    hide CompositeEnd, Render, StringText;
    var k := StringText(m.key);
    MemberParts(raw, p, m);
    NeutralSkipped(raw, p, m.before, depth);
    var q := p + |m.before|;
    StringSkipped(raw, q, m.key, depth);
    NeutralSkipped(raw, q + |k|, m.keyGap, depth);
    NeutralSkipped(raw, q + |k| + |m.keyGap|, [COLON], depth);
    NeutralSkipped(raw, q + |k| + |m.keyGap| + 1, m.valueGap, depth);
    ValueSkipped(raw, p + |MemberHead(m)|, m.value, depth);
    NeutralSkipped(raw, p + |MemberHead(m)| + |Render(m.value)|, m.after, depth);
  }

  lemma {:induction false} TokenScanned(raw: Bytes, p: nat, bs: Bytes)
    requires At(raw, p, bs) && forall i :: 0 <= i < |bs| ==> IsTokenByte(bs[i])
    requires p + |bs| < |raw| ==> EndsToken(raw[p + |bs|])
    ensures TokenEnd(raw, p) == p + |bs|
    decreases |bs|
  {
    if bs != [] {
      assert raw[p + 0] == bs[0];
      assert bs == [bs[0]] + bs[1..];
      AtSplit(raw, p, [bs[0]], bs[1..]);
      TokenScanned(raw, p + 1, bs[1..]);
    }
  }

  /** Any value of the grammar, at any depth, is scanned to its exact end. */
  lemma ValueScanned(raw: Bytes, p: nat, v: Value)
    requires ValueOk(v) && At(raw, p, Render(v))
    requires p + |Render(v)| < |raw| ==> EndsToken(raw[p + |Render(v)|])
    ensures ValueEnd(raw, p) == Some(p + |Render(v)|)
  {
    ValueEdges(v);
    assert raw[p + 0] == Render(v)[0];
    match v {
      case Text(items) => StringScanned(raw, p, items);
      case Token(bytes) => TokenScanned(raw, p, bytes);
      case Array(_, _) => BodySkipped(raw, p, v, 0);
      case Object(_, _) => BodySkipped(raw, p, v, 0);
    }
  }

  // ----- the index loops -----

  method SkipSpaces(raw: Bytes, start: nat) returns (p: nat)
    requires start <= |raw|
    ensures p == SkipSpace(raw, start)
  {
    p := start;
    while p < |raw| && IsSpace(raw[p])
      invariant start <= p <= |raw| && SkipSpace(raw, p) == SkipSpace(raw, start)
    {
      p := p + 1;
    }
  }

  method ScanStringEnd(raw: Bytes, start: nat) returns (end: Option<nat>)
    ensures end == StringEnd(raw, start)
  {
    if start >= |raw| || raw[start] != QUOTE {
      return None;
    }
    var p := start + 1;
    while p < |raw|
      invariant start + 1 <= p <= |raw| + 1 && BodyEnd(raw, p) == BodyEnd(raw, start + 1)
      decreases |raw| + 1 - p
    {
      if raw[p] == BACKSLASH {
        p := p + 1;
      } else if raw[p] == QUOTE {
        return Some(p + 1);
      }
      p := p + 1;
    }
    return None;
  }

  method ScanValueEnd(raw: Bytes, start: nat) returns (end: Option<nat>)
    ensures end == ValueEnd(raw, start)
  {
    if start >= |raw| {
      return None;
    }
    if raw[start] == QUOTE {
      end := ScanStringEnd(raw, start);
      return;
    }
    var p := start;
    if raw[start] != LBRACE && raw[start] != LBRACKET {
      while p < |raw| && !EndsToken(raw[p])
        invariant start <= p <= |raw| && TokenEnd(raw, p) == TokenEnd(raw, start)
      {
        p := p + 1;
      }
      return Some(p);
    }
    var depth := 0;
    while p < |raw|
      invariant start <= p <= |raw| && CompositeEnd(raw, p, depth) == CompositeEnd(raw, start, 0)
      decreases |raw| - p
    {
      var b := raw[p];
      if b == QUOTE {
        var stop := ScanStringEnd(raw, p);
        if stop.None? {
          return None;
        }
        p := stop.value - 1;
      } else if b == LBRACE || b == LBRACKET {
        depth := depth + 1;
      } else if b == RBRACE || b == RBRACKET {
        depth := depth - 1;
        if depth == 0 {
          return Some(p + 1);
        }
      }
      p := p + 1;
    }
    return None;
  }
}
