/**
 The splicing procedures (internal/engine/rawjson.go:629-767), each proved against the edit it
 computes.
 */
module JsonSplice {
  import opened Wrappers
  import opened JsonText
  import opened JsonSpans
  import opened JsonEdit
  import opened JsonSweep

  method FindMember(order: seq<string>, key: string) returns (i: nat)
    ensures i == IndexOf(order, key)
  {
    i := 0;
    while i < |order| && order[i] != key
      invariant i <= IndexOf(order, key)
    {
      i := i + 1;
    }
  }

  method TrimEnd(bs: Bytes, end: nat) returns (kept: nat)
    requires end <= |bs|
    ensures kept <= end && bs[..kept] == TrimRight(bs[..end])
  {
    kept := end;
    while kept > 0 && IsSpace(bs[kept - 1])
      invariant kept <= end && TrimRight(bs[..end]) == TrimRight(bs[..kept])
    {
      assert bs[..kept][..kept - 1] == bs[..kept - 1];
      kept := kept - 1;
    }
  }

  method SpliceInsert(c: Codec, raw: Bytes, close: nat, key: string, value: Bytes) returns (out: Bytes)
    requires close < |raw|
    ensures out == Insert(c, raw, close, key, value)
  {
    var kept := TrimEnd(raw, close);
    var base := raw[..kept];
    out := base;
    if !(base != [] && base[|base| - 1] == LBRACE) {
      out := out + [COMMA];
    }
    out := out + c.quote(key) + [COLON] + value + raw[kept..close] + [RBRACE] + raw[close + 1..];
    assert base + [] == base;
  }

  method SpliceSet(c: Codec, raw: Bytes, key: string, value: Bytes) returns (result: Option<Bytes>)
    ensures result == SetMember(c, raw, key, value)
  {
    hide Insert, ObjectSpans, ValidObject;
    if !c.validKey(key) || !c.valid(value) {
      return None;
    }
    var parsed := ParseObjectSpans(c.unquote, raw);
    if parsed.None? {
      return None;
    }
    var spans, close := parsed.value.spans, parsed.value.close;
    var out;
    if key in spans {
      var sp := spans[key];
      assert Fits(sp, raw);
      out := raw[..sp.valStart] + value + raw[sp.valEnd..];
    } else {
      out := SpliceInsert(c, raw, close, key, value);
    }
    if !ValidObject(c, out) {
      return None;
    }
    return Some(out);
  }

  method SpliceDelete(c: Codec, raw: Bytes, key: string) returns (result: Option<Bytes>)
    ensures result == DeleteMember(c, raw, key)
  {
    if !c.validKey(key) {
      return None;
    }
    var parsed := ParseObjectSpans(c.unquote, raw);
    if parsed.None? {
      return None;
    }
    var order, spans := parsed.value.order, parsed.value.spans;
    var i := FindMember(order, key);
    if i == |order| {
      return Some(raw);
    }
    var sp := spans[order[i]];
    assert Fits(sp, raw);
    var prefix, suffix;
    if i > 0 {
      var prev := spans[order[i - 1]];
      assert Fits(prev, raw);
      prefix, suffix := raw[..prev.valEnd], raw[sp.valEnd..];
    } else if |order| > 1 {
      var next := spans[order[1]];
      assert Fits(next, raw);
      prefix, suffix := raw[..sp.keyStart], raw[next.keyStart..];
    } else {
      prefix, suffix := raw[..sp.keyStart], raw[sp.valEnd..];
    }
    if !ValidObject(c, prefix + suffix) {
      return None;
    }
    return Some(prefix + suffix);
  }

  method FilterNames(order: seq<string>, drop: set<string>) returns (retained: seq<string>)
    ensures retained == Retained(order, drop)
  {
    retained := [];
    for i := 0 to |order|
      invariant retained == Retained(order[..i], drop)
    {
      assert order[..i + 1][..i] == order[..i];
      if order[i] !in drop {
        retained := retained + [order[i]];
      }
    }
    assert order[..|order|] == order;
  }

  method CopyMembers(raw: Bytes, spans: map<string, Span>, names: seq<string>) returns (out: Bytes)
    requires AllFit(raw, spans) && forall k :: k in names ==> k in spans
    ensures out == Pieces(raw, spans, names)
  {
    out := [];
    for i := 0 to |names|
      invariant out == Pieces(raw, spans, names[..i])
    {
      var sp := spans[names[i]];
      assert Fits(sp, raw);
      assert names[..i + 1][..i] == names[..i];
      if i > 0 {
        out := out + raw[sp.sepStart..sp.keyStart];
      }
      out := out + raw[sp.keyStart..sp.valEnd];
    }
    assert names[..|names|] == names;
  }

  method SpliceDeleteAll(c: Codec, raw: Bytes, keys: seq<string>) returns (result: Option<Bytes>)
    ensures result == DeleteMembers(c, raw, keys)
  {
    var parsed := ParseObjectSpans(c.unquote, raw);
    if parsed.None? {
      return None;
    }
    var order, spans := parsed.value.order, parsed.value.spans;
    var drop: set<string> := {};
    for i := 0 to |keys|
      invariant drop == KeySet(keys[..i])
    {
      drop := drop + {keys[i]};
    }
    assert keys[..|keys|] == keys;
    var retained := FilterNames(order, drop);
    if |retained| == |order| {
      return Some(raw);
    }
    var first, last := spans[order[0]], spans[order[|order| - 1]];
    assert Fits(first, raw) && Fits(last, raw);
    var out := raw[..first.keyStart];
    var members := CopyMembers(raw, spans, retained);
    out := out + members + raw[last.valEnd..];
    if !ValidObject(c, out) {
      return None;
    }
    return Some(out);
  }
}
