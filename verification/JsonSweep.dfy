/**
 Deleting several members in one pass (internal/engine/rawjson.go:728-767) against deleting them
 one by one. Both are swept from the same tree, so both keep the same members with the same bytes
 in the same order whatever the order of the names; the bytes between the members differ exactly
 when whitespace stands before the comma of a survivor that is not the first.
 */
module JsonSweep {
  import opened Wrappers
  import opened JsonText
  import opened JsonSpans
  import opened JsonEdit
  import opened JsonLaws

  // ----- the one pass on bytes -----

  /** The names that stay. */
  function Retained(order: seq<string>, drop: set<string>): (r: seq<string>)
    ensures forall k :: k in r <==> k in order && k !in drop
    ensures |r| <= |order|
  {
    if order == [] then []
    else
      Retained(order[..|order| - 1], drop)
      + (if order[|order| - 1] in drop then [] else [order[|order| - 1]])
  }

  predicate AllFit(raw: Bytes, spans: map<string, Span>) {
    forall k :: k in spans ==> Fits(spans[k], raw)
  }

  /** The retained members' bytes, each after the first behind its own comma. */
  function Pieces(raw: Bytes, spans: map<string, Span>, names: seq<string>): Bytes
    requires AllFit(raw, spans) && forall k :: k in names ==> k in spans
  {
    if names == [] then []
    else
      var sp := spans[names[|names| - 1]];
      assert Fits(sp, raw);
      Pieces(raw, spans, names[..|names| - 1])
      + (if |names| > 1 then raw[sp.sepStart..sp.keyStart] else [])
      + raw[sp.keyStart..sp.valEnd]
  }

  function Swept(raw: Bytes, sp: Spans, drop: set<string>): Bytes
    requires sp.order != [] && AllFit(raw, sp.spans) && forall k :: k in sp.order ==> k in sp.spans
  {
    var first, last := sp.spans[sp.order[0]], sp.spans[sp.order[|sp.order| - 1]];
    assert Fits(first, raw) && Fits(last, raw);
    raw[..first.keyStart] + Pieces(raw, sp.spans, Retained(sp.order, drop)) + raw[last.valEnd..]
  }

  function KeySet(keys: seq<string>): set<string> {
    set k | k in keys
  }

  function DeleteMembers(c: Codec, raw: Bytes, keys: seq<string>): Option<Bytes> {
    var sp := ObjectSpans(c.unquote, raw);
    if sp.None? then None
    else
      var drop := KeySet(keys);
      if |Retained(sp.value.order, drop)| == |sp.value.order| then Some(raw)
      else Checked(c, Swept(raw, sp.value, drop))
  }

  /** The same members deleted one call at a time. */
  function DeleteEach(c: Codec, raw: Bytes, keys: seq<string>): Option<Bytes>
    decreases |keys|
  {
    if keys == [] then Some(raw)
    else
      var next := DeleteMember(c, raw, keys[0]);
      if next.None? then None else DeleteEach(c, next.value, keys[1..])
  }

  // ----- the sweep on members -----

  function Closed(ms: seq<Member>, after: Bytes): seq<Member> {
    if ms == [] then [] else ms[|ms| - 1 := ms[|ms| - 1].(after := after)]
  }

  /**
   The first `n` members swept: a dropped member leaves its trailing whitespace to the survivor
   before it, the first survivor takes the object's leading whitespace, and with `tight` a
   survivor's comma follows the previous value directly.
   */
  ghost function Sweep(u: Unquote, ms: seq<Member>, drop: set<string>, n: nat, tight: bool): seq<Member>
    requires n <= |ms|
  {
    if n == 0 then []
    else
      var out, m := Sweep(u, ms, drop, n - 1, tight), ms[n - 1];
      if Name(u, m) in drop then Closed(out, m.after)
      else if out == [] then [m.(before := ms[0].before)]
      else (if tight then Closed(out, []) else out) + [m]
  }

  /** The members that stay, untouched. */
  ghost function Kept(u: Unquote, ms: seq<Member>, drop: set<string>, n: nat): seq<Member>
    requires n <= |ms|
  {
    if n == 0 then []
    else Kept(u, ms, drop, n - 1) + (if Name(u, ms[n - 1]) in drop then [] else [ms[n - 1]])
  }

  /** Two members with the same bytes from key to value. */
  predicate SameCore(a: Member, b: Member) {
    a.key == b.key && a.keyGap == b.keyGap && a.valueGap == b.valueGap && a.value == b.value
  }

  ghost function SweptInner(u: Unquote, ms: seq<Member>, drop: set<string>, inner: Bytes): Bytes {
    if ms != [] && Kept(u, ms, drop, |ms|) == [] then ms[0].before + ms[|ms| - 1].after else inner
  }

  /** Whatever is dropped, the survivors keep their order and every byte from key to value. */
  lemma {:induction false} SweepKeeps(u: Unquote, ms: seq<Member>, drop: set<string>, n: nat, tight: bool)
    requires n <= |ms|
    ensures var out, kept := Sweep(u, ms, drop, n, tight), Kept(u, ms, drop, n);
            |out| == |kept| && forall i :: 0 <= i < |out| ==> SameCore(out[i], kept[i])
    ensures var out := Sweep(u, ms, drop, n, tight);
            out != [] ==> out[|out| - 1].after == ms[n - 1].after
  {
    hide Name;
    if n > 0 {
      SweepKeeps(u, ms, drop, n - 1, tight);
    }
  }

  // ----- one by one -----

  lemma {:induction false} SweepSame(u: Unquote, ms: seq<Member>, a: set<string>, b: set<string>, n: nat, tight: bool)
    requires n <= |ms| && forall i :: 0 <= i < n ==> (Name(u, ms[i]) in a <==> Name(u, ms[i]) in b)
    ensures Sweep(u, ms, a, n, tight) == Sweep(u, ms, b, n, tight) && Kept(u, ms, a, n) == Kept(u, ms, b, n)
  {
    hide Name, Closed;
    if n > 0 {
      SweepSame(u, ms, a, b, n - 1, tight);
    }
  }

  lemma {:induction false} SweepNone(u: Unquote, ms: seq<Member>, drop: set<string>, n: nat)
    requires n <= |ms| && forall i :: 0 <= i < n ==> Name(u, ms[i]) !in drop
    ensures Sweep(u, ms, drop, n, false) == ms[..n] && Kept(u, ms, drop, n) == ms[..n]
  {
    hide Name, Closed;
    if n > 0 {
      SweepNone(u, ms, drop, n - 1);
      assert ms[..n] == ms[..n - 1] + [ms[n - 1]];
    }
  }

  /** Two sweeps that agree so far agree on one more member that looks the same to both. */
  lemma SweptNext(u: Unquote, a: seq<Member>, x: set<string>, j: nat, b: seq<Member>, y: set<string>, k: nat)
    requires j < |a| && k < |b| && Sweep(u, a, x, j, false) == Sweep(u, b, y, k, false)
    requires Name(u, a[j]) in x <==> Name(u, b[k]) in y
    requires a[j].(before := a[0].before) == b[k].(before := b[0].before) && (j > 0 ==> a[j] == b[k])
    ensures Sweep(u, a, x, j + 1, false) == Sweep(u, b, y, k + 1, false)
  {
    hide Name, Closed;
  }

  /** One removal is one more name for the sweep: the members before the removed one. */
  lemma {:induction false} SweepBefore(u: Unquote, ms: seq<Member>, drop: set<string>, i: nat, n: nat)
    requires n + 1 <= i < |ms| && Distinct(Names(u, ms))
    ensures |Removed(ms, i)| == |ms| - 1
    ensures Sweep(u, Removed(ms, i), drop, n, false) == Sweep(u, ms, drop + {Name(u, ms[i])}, n, false)
  {
    hide Name, Names, Closed;
    var r := Removed(ms, i);
    if n > 0 {
      SweepBefore(u, ms, drop, i, n - 1);
      Apart(Names(u, ms), n - 1, i);
      assert r[n - 1] == ms[n - 1] && (i > 1 ==> r[0] == ms[0]);
      SweptNext(u, r, drop, n - 1, ms, drop + {Name(u, ms[i])}, n - 1);
    }
  }

  /** Sweeping past a member and closing over the next is sweeping past it already closed. */
  lemma SweptClosed(u: Unquote, ms: seq<Member>, drop: set<string>, i: nat)
    requires 0 < i < |ms| && Name(u, ms[i]) in drop
    ensures var out := Sweep(u, ms, drop, i - 1, false);
            Sweep(u, ms, drop, i + 1, false) ==
              if Name(u, ms[i - 1]) in drop then Closed(out, ms[i].after)
              else if out == [] then [ms[i - 1].(before := ms[0].before, after := ms[i].after)]
              else out + [ms[i - 1].(after := ms[i].after)]
  {
    hide Name;
    var out := Sweep(u, ms, drop, i - 1, false);
    assert Sweep(u, ms, drop, i, false) ==
           (if Name(u, ms[i - 1]) in drop then Closed(out, ms[i - 1].after)
            else if out == [] then [ms[i - 1].(before := ms[0].before)] else out + [ms[i - 1]]);
  }

  /** The member that takes over the removed member's trailing whitespace. */
  lemma SweepAcross(u: Unquote, ms: seq<Member>, drop: set<string>, i: nat)
    requires 0 < i < |ms| && Distinct(Names(u, ms))
    ensures |Removed(ms, i)| == |ms| - 1
    ensures Sweep(u, Removed(ms, i), drop, i, false) == Sweep(u, ms, drop + {Name(u, ms[i])}, i + 1, false)
  {
    hide Name, Names, Closed;
    var r, all := Removed(ms, i), drop + {Name(u, ms[i])};
    SweepBefore(u, ms, drop, i, i - 1);
    Apart(Names(u, ms), i - 1, i);
    SameName(u, r[i - 1], ms[i - 1]);
    assert r[i - 1] == ms[i - 1].(after := ms[i].after) && r[0].before == ms[0].before;
    SweptClosed(u, ms, all, i);
  }

  /** Removing the first member leaves nothing swept before the second. */
  lemma SweepFirst(u: Unquote, ms: seq<Member>, drop: set<string>)
    requires ms != []
    ensures Sweep(u, ms, drop + {Name(u, ms[0])}, 1, false) == []
  {
    hide Name;
    assert Sweep(u, ms, drop + {Name(u, ms[0])}, 0, false) == [];
  }

  lemma {:induction false} SweepAfter(u: Unquote, ms: seq<Member>, drop: set<string>, i: nat, n: nat)
    requires i <= n < |ms| && Distinct(Names(u, ms))
    ensures |Removed(ms, i)| == |ms| - 1
    ensures Sweep(u, Removed(ms, i), drop, n, false) == Sweep(u, ms, drop + {Name(u, ms[i])}, n + 1, false)
  {
    hide Name, Names, Closed, Removed, Distinct;
    RemovedSize(ms, i);
    if n > i {
      SweepAfter(u, ms, drop, i, n - 1);
      Apart(Names(u, ms), n, i);
      RemovedLater(u, ms, i, n - 1);
      RemovedEnds(ms, i);
      SweptNext(u, Removed(ms, i), drop, n - 1, ms, drop + {Name(u, ms[i])}, n);
    } else if i > 0 {
      SweepAcross(u, ms, drop, i);
    } else {
      SweepFirst(u, ms, drop);
    }
  }

  lemma RemovedSize(ms: seq<Member>, i: nat)
    requires i < |ms|
    ensures |Removed(ms, i)| == |ms| - 1
  {
  }

  lemma ClosedNone(after: Bytes)
    ensures Closed([], after) == []
  {
  }

  lemma RemovedShift(ms: seq<Member>, i: nat, j: nat)
    requires i <= j < |ms| - 1
    ensures |Removed(ms, i)| == |ms| - 1
    ensures Removed(ms, i)[j] == if j > 0 then ms[j + 1] else ms[1].(before := ms[0].before)
  {
    if i > 0 {
      assert Removed(ms, i)[j] == ms[i + 1..][j - i];
    } else if j > 0 {
      assert Removed(ms, 0)[j] == ms[2..][j - 1];
    }
  }

  lemma RemovedLater(u: Unquote, ms: seq<Member>, i: nat, j: nat)
    requires i <= j < |ms| - 1
    ensures var r := Removed(ms, i);
            && |r| == |ms| - 1 && r[j].(before := ms[0].before) == ms[j + 1].(before := ms[0].before)
            && (j > 0 ==> r[j] == ms[j + 1]) && Name(u, r[j]) == Name(u, ms[j + 1])
  {
    hide Name, Removed;
    RemovedShift(ms, i, j);
    SameName(u, Removed(ms, i)[j], ms[j + 1]);
  }

  lemma RemovedEnds(ms: seq<Member>, i: nat)
    requires i < |ms| && |ms| > 1
    ensures var r := Removed(ms, i);
            |r| == |ms| - 1 && r[0].before == ms[0].before && r[|r| - 1].after == ms[|ms| - 1].after
  {
  }

  /** The object that deleting the names one by one leaves. */
  ghost function EachBytes(u: Unquote, pre: Bytes, ms: seq<Member>, inner: Bytes, post: Bytes, drop: set<string>): Bytes {
    ObjectBytes(pre, Sweep(u, ms, drop, |ms|, false), SweptInner(u, ms, drop, inner), post)
  }

  lemma KeptEmpty(u: Unquote, ms: seq<Member>, drop: set<string>)
    ensures Kept(u, ms, drop, |ms|) == [] <==> Sweep(u, ms, drop, |ms|, false) == []
  {
    hide *;
    SweepKeeps(u, ms, drop, |ms|, false);
  }

  lemma InnerAfterRemoval(u: Unquote, ms: seq<Member>, inner: Bytes, drop: set<string>, i: nat)
    requires i < |ms| && Distinct(Names(u, ms))
    ensures SweptInner(u, Removed(ms, i), drop, RemovedInner(ms, inner)) == SweptInner(u, ms, drop + {Name(u, ms[i])}, inner)
  {
    hide Name, Names, Removed, Sweep, Kept;
    var r, all := Removed(ms, i), drop + {Name(u, ms[i])};
    SweepAfter(u, ms, drop, i, |ms| - 1);
    KeptEmpty(u, ms, all);
    KeptEmpty(u, r, drop);
    if |ms| > 1 {
      RemovedEnds(ms, i);
    } else {
      SweepNone(u, r, drop, 0);
    }
  }

  lemma EachAfterRemoval(u: Unquote, pre: Bytes, ms: seq<Member>, inner: Bytes, post: Bytes, drop: set<string>, i: nat)
    requires i < |ms| && Distinct(Names(u, ms))
    ensures EachBytes(u, pre, Removed(ms, i), RemovedInner(ms, inner), post, drop) ==
              EachBytes(u, pre, ms, inner, post, drop + {Name(u, ms[i])})
  {
    hide Name, Names, Removed, ObjectBytes, Sweep, SweptInner, RemovedInner, Distinct;
    var r, all := Removed(ms, i), drop + {Name(u, ms[i])};
    SweepAfter(u, ms, drop, i, |ms| - 1);
    assert Sweep(u, r, drop, |r|, false) == Sweep(u, ms, all, |ms|, false);
    InnerAfterRemoval(u, ms, inner, drop, i);
  }

  /** Deleting names one by one succeeds and depends only on the set of names. */
  lemma {:induction false} EachIs(c: Codec, pre: Bytes, ms: seq<Member>, inner: Bytes, post: Bytes, keys: seq<string>)
    requires StrictObject(c, pre, ms, inner, post) && forall k :: k in keys ==> c.validKey(k)
    ensures DeleteEach(c, ObjectBytes(pre, ms, inner, post), keys) ==
              Some(EachBytes(c.unquote, pre, ms, inner, post, KeySet(keys)))
    decreases |keys|
  {
    hide ObjectBytes, StrictObject, DeleteMember, Sweep, Kept, Removed, RemovedInner, Name, Distinct;
    var u, drop := c.unquote, KeySet(keys);
    if keys == [] {
      SweepNone(u, ms, drop, |ms|);
      assert ms[..|ms|] == ms;
    } else {
      var k, rest := keys[0], KeySet(keys[1..]);
      assert drop == rest + {k};
      if k in Names(u, ms) {
        var i := NameAt(u, ms, k);
        DeletePresent(c, pre, ms, inner, post, i);
        RemovedStrict(c, pre, ms, inner, post, i);
        EachIs(c, pre, Removed(ms, i), RemovedInner(ms, inner), post, keys[1..]);
        ObjectFacts(c, pre, ms, inner, post);
        EachAfterRemoval(u, pre, ms, inner, post, rest, i);
      } else {
        DeleteAbsent(c, pre, ms, inner, post, k);
        EachIs(c, pre, ms, inner, post, keys[1..]);
        SweepSame(u, ms, drop, rest, |ms|, false);
      }
    }
  }

  // ----- in one pass -----

  /** The member names of the sweep's input, cut at `n`. */
  lemma NamesCut(u: Unquote, ms: seq<Member>, n: nat)
    requires n < |ms|
    ensures Names(u, ms[..n + 1]) == Names(u, ms[..n]) + [Name(u, ms[n])]
  {
    hide Name;
    assert ms[..n + 1] == ms[..n] + [ms[n]];
    assert ms[..n + 1][..n] == ms[..n];
  }

  lemma RetainedSnoc(order: seq<string>, k: string, drop: set<string>)
    ensures Retained(order + [k], drop) == Retained(order, drop) + (if k in drop then [] else [k])
  {
    assert (order + [k])[..|order|] == order;
  }

  lemma {:induction false} RetainedNames(u: Unquote, ms: seq<Member>, drop: set<string>, n: nat)
    requires n <= |ms|
    ensures Retained(Names(u, ms[..n]), drop) == Names(u, Kept(u, ms, drop, n))
  {
    hide Name, Names, Retained, Kept;
    if n == 0 {
      NothingKept(u, ms, drop);
      assert ms[..0] == [];
      NoneRetained(u, drop);
    } else {
      RetainedNames(u, ms, drop, n - 1);
      NamesCut(u, ms, n - 1);
      RetainedSnoc(Names(u, ms[..n - 1]), Name(u, ms[n - 1]), drop);
      KeptStep(u, ms, drop, n - 1);
    }
  }

  lemma NoneRetained(u: Unquote, drop: set<string>)
    ensures Retained(Names(u, []), drop) == []
  {
  }

  /** Appending a member to a list whose last member has no trailing whitespace. */
  lemma AppendBytes(out: seq<Member>, m: Member)
    requires out != []
    ensures Members(Closed(out, []) + [m.(after := [])]) == Members(Closed(out, [])) + ([COMMA] + m.before + KeyValue(m))
  {
    hide Members, MemberBytes, KeyValue;
    MembersJoin(Closed(out, []), [m.(after := [])]);
    OneMember(m.(after := []));
    MemberIs(m.(after := []));
    SameKeyValue(m.(after := []), m);
    var a := Members(Closed(out, []));
    assert a + [COMMA] + (m.before + KeyValue(m) + []) == a + ([COMMA] + m.before + KeyValue(m));
  }

  /** The bytes the spans of member `i` cut out: its comma with what follows it, and its key to its value. */
  lemma PieceCuts(c: Codec, pre: Bytes, ms: seq<Member>, inner: Bytes, post: Bytes, i: nat)
    requires StrictObject(c, pre, ms, inner, post) && i < |ms|
    ensures var raw, sp := ObjectBytes(pre, ms, inner, post), SpanOf(ms, i, |pre| + 1);
            && Fits(sp, raw) && raw[sp.keyStart..sp.valEnd] == KeyValue(ms[i])
            && (i > 0 ==> raw[sp.sepStart..sp.keyStart] == [COMMA] + ms[i].before)
  {
    hide ObjectBytes, KeyValue, Members, MemberBytes, MemberHead, MemberStart, Behind, StrictObject, Render, StringText;
    var raw, sp := ObjectBytes(pre, ms, inner, post), SpanOf(ms, i, |pre| + 1);
    SpanCuts(pre, ms, inner, post, i);
    if i > 0 {
      var a := Ahead(pre, ms, i);
      assert ms[..i] == ms[..i - 1] + [ms[i - 1]];
      LeftSnoc(ms[..i - 1], ms[i - 1]);
      assert a[|a| - 1] == COMMA;
      assert raw[..sp.keyStart][|a| - 1..] == [COMMA] + ms[i].before;
    }
  }

  lemma SpansFit(c: Codec, pre: Bytes, ms: seq<Member>, inner: Bytes, post: Bytes)
    requires StrictObject(c, pre, ms, inner, post)
    ensures AllFit(ObjectBytes(pre, ms, inner, post), SpanMap(c.unquote, ms, |ms|, |pre| + 1))
    ensures forall k :: k in Names(c.unquote, ms) ==> k in SpanMap(c.unquote, ms, |ms|, |pre| + 1)
  {
    hide ObjectBytes, SpanMap, Names, StrictObject, Fits, Render, ObjectSpans;
    ObjectSpansAre(c, pre, ms, inner, post);
    var sp := ObjectSpans(c.unquote, ObjectBytes(pre, ms, inner, post)).value;
    forall k | k in sp.order ensures k in sp.spans {
      var i :| 0 <= i < |sp.order| && sp.order[i] == k;
    }
  }

  /** The bytes written for the first `n` members. */
  ghost function Written(u: Unquote, ms: seq<Member>, drop: set<string>, n: nat): Bytes
    requires n <= |ms|
  {
    if n == 0 then []
    else
      Written(u, ms, drop, n - 1)
      + (if Name(u, ms[n - 1]) in drop then []
         else (if Kept(u, ms, drop, n - 1) == [] then [] else [COMMA] + ms[n - 1].before) + KeyValue(ms[n - 1]))
  }

  lemma NamesSnoc(u: Unquote, ms: seq<Member>, m: Member)
    ensures Names(u, ms + [m]) == Names(u, ms) + [Name(u, m)]
  {
    hide Name;
    assert (ms + [m])[..|ms|] == ms;
  }

  lemma PiecesSnoc(raw: Bytes, spans: map<string, Span>, names: seq<string>, k: string)
    requires AllFit(raw, spans) && k in spans && forall k :: k in names ==> k in spans
    ensures Fits(spans[k], raw) && forall k' :: k' in names + [k] ==> k' in spans
    ensures Pieces(raw, spans, names + [k]) ==
              Pieces(raw, spans, names)
              + (if names == [] then [] else raw[spans[k].sepStart..spans[k].keyStart]) + raw[spans[k].keyStart..spans[k].valEnd]
  {
    assert (names + [k])[..|names|] == names;
  }

  /** The spans found in an object, on the names that stay among its first `n` members. */
  ghost predicate PiecesWrite(c: Codec, pre: Bytes, ms: seq<Member>, inner: Bytes, post: Bytes, drop: set<string>, n: nat)
    requires n <= |ms|
  {
    var raw, spans, names := ObjectBytes(pre, ms, inner, post), SpanMap(c.unquote, ms, |ms|, |pre| + 1), Names(c.unquote, Kept(c.unquote, ms, drop, n));
    AllFit(raw, spans) && (forall k :: k in names ==> k in spans) && Pieces(raw, spans, names) == Written(c.unquote, ms, drop, n)
  }

  lemma PieceIs(c: Codec, pre: Bytes, ms: seq<Member>, inner: Bytes, post: Bytes, i: nat)
    requires StrictObject(c, pre, ms, inner, post) && i < |ms|
    ensures var raw, spans, k := ObjectBytes(pre, ms, inner, post), SpanMap(c.unquote, ms, |ms|, |pre| + 1), Name(c.unquote, ms[i]);
            && k in spans && Fits(spans[k], raw)
            && raw[spans[k].keyStart..spans[k].valEnd] == KeyValue(ms[i])
            && (i > 0 ==> raw[spans[k].sepStart..spans[k].keyStart] == [COMMA] + ms[i].before)
  {
    hide *;
    ObjectSpansAre(c, pre, ms, inner, post);
    PieceCuts(c, pre, ms, inner, post, i);
  }

  lemma KeptStep(u: Unquote, ms: seq<Member>, drop: set<string>, n: nat)
    requires n < |ms|
    ensures Names(u, Kept(u, ms, drop, n + 1)) ==
              (if Name(u, ms[n]) in drop then Names(u, Kept(u, ms, drop, n)) else Names(u, Kept(u, ms, drop, n)) + [Name(u, ms[n])])
    ensures n == 0 ==> Kept(u, ms, drop, n) == []
  {
    hide Name, Names;
    NamesSnoc(u, Kept(u, ms, drop, n), ms[n]);
    assert Kept(u, ms, drop, n) + [] == Kept(u, ms, drop, n);
  }

  lemma PieceDropped(c: Codec, pre: Bytes, ms: seq<Member>, inner: Bytes, post: Bytes, drop: set<string>, n: nat)
    requires n < |ms| && PiecesWrite(c, pre, ms, inner, post, drop, n) && Name(c.unquote, ms[n]) in drop
    ensures PiecesWrite(c, pre, ms, inner, post, drop, n + 1)
  {
    hide ObjectBytes, SpanMap, Name, Names, KeyValue, AllFit, Pieces, Kept;
    KeptStep(c.unquote, ms, drop, n);
  }

  lemma PieceWritten(c: Codec, pre: Bytes, ms: seq<Member>, inner: Bytes, post: Bytes, drop: set<string>, n: nat)
    requires n < |ms| && PiecesWrite(c, pre, ms, inner, post, drop, n) && Name(c.unquote, ms[n]) !in drop
    requires StrictObject(c, pre, ms, inner, post)
    ensures PiecesWrite(c, pre, ms, inner, post, drop, n + 1)
  {
    hide ObjectBytes, SpanMap, Name, Names, StrictObject, Fits, KeyValue, AllFit, Pieces, Kept;
    KeptStep(c.unquote, ms, drop, n);
    PieceIs(c, pre, ms, inner, post, n);
    PiecesSnoc(ObjectBytes(pre, ms, inner, post), SpanMap(c.unquote, ms, |ms|, |pre| + 1),
               Names(c.unquote, Kept(c.unquote, ms, drop, n)), Name(c.unquote, ms[n]));
    var w, k, b := Written(c.unquote, ms, drop, n), KeyValue(ms[n]), ms[n].before;
    assert w + ([COMMA] + b) + k == w + (([COMMA] + b) + k) && w + [] + k == w + ([] + k);
  }

  lemma {:induction false} PiecesAre(c: Codec, pre: Bytes, ms: seq<Member>, inner: Bytes, post: Bytes, drop: set<string>, n: nat)
    requires StrictObject(c, pre, ms, inner, post) && n <= |ms|
    ensures PiecesWrite(c, pre, ms, inner, post, drop, n)
  {
    hide ObjectBytes, SpanMap, Name, Names, StrictObject, AllFit, Pieces, Kept;
    if n == 0 {
      SpansFit(c, pre, ms, inner, post);
      NothingKept(c.unquote, ms, drop);
      NoPieces(ObjectBytes(pre, ms, inner, post), SpanMap(c.unquote, ms, |ms|, |pre| + 1));
    } else {
      hide PiecesWrite;
      PiecesAre(c, pre, ms, inner, post, drop, n - 1);
      if Name(c.unquote, ms[n - 1]) in drop {
        PieceDropped(c, pre, ms, inner, post, drop, n - 1);
      } else {
        PieceWritten(c, pre, ms, inner, post, drop, n - 1);
      }
    }
  }

  lemma NothingKept(u: Unquote, ms: seq<Member>, drop: set<string>)
    ensures Names(u, Kept(u, ms, drop, 0)) == []
  {
  }

  lemma NoPieces(raw: Bytes, spans: map<string, Span>)
    requires AllFit(raw, spans)
    ensures Pieces(raw, spans, []) == []
  {
  }

  lemma ClosedTwice(ms: seq<Member>, a: Bytes, b: Bytes)
    ensures Closed(Closed(ms, a), b) == Closed(ms, b)
  {
  }

  lemma ClosedSnoc(ms: seq<Member>, m: Member)
    ensures Closed(ms + [m], []) == ms + [m.(after := [])]
  {
  }

  lemma FirstWritten(m: Member, before: Bytes)
    ensures before + KeyValue(m) == Members(Closed([m.(before := before)], []))
  {
    hide Members, KeyValue, MemberBytes;
    var f := m.(before := before, after := []);
    assert Closed([m.(before := before)], []) == [f];
    OneMember(f);
    MemberIs(f);
    SameKeyValue(f, m);
    assert before + KeyValue(m) + [] == before + KeyValue(m);
  }

  lemma NextWritten(out: seq<Member>, m: Member, b: Bytes, w: Bytes)
    requires out != [] && b + w == Members(Closed(out, []))
    ensures Closed(Closed(out, []) + [m], []) != []
    ensures b + (w + ([COMMA] + m.before + KeyValue(m))) == Members(Closed(Closed(out, []) + [m], []))
  {
    hide Members, KeyValue, Closed;
    ClosedKeeps(Closed(out, []) + [m], []);
    ClosedSnoc(Closed(out, []), m);
    AppendBytes(out, m);
    var k := KeyValue(m);
    assert b + (w + ([COMMA] + m.before + k)) == (b + w) + ([COMMA] + m.before + k);
  }

  /** The invariant of the pass: what is written is the swept members without the whitespace at either end. */
  ghost predicate WrittenSoFar(b: Bytes, w: Bytes, out: seq<Member>) {
    if out == [] then w == [] else Closed(out, []) != [] && b + w == Members(Closed(out, []))
  }

  lemma SweepStep(u: Unquote, ms: seq<Member>, drop: set<string>, n: nat)
    requires n < |ms|
    ensures var out, m := Sweep(u, ms, drop, n, true), ms[n];
            Sweep(u, ms, drop, n + 1, true) ==
              if Name(u, m) in drop then Closed(out, m.after)
              else if out == [] then [m.(before := ms[0].before)] else Closed(out, []) + [m]
  {
    hide Name, Closed;
  }

  lemma WrittenStep(u: Unquote, ms: seq<Member>, drop: set<string>, n: nat)
    requires n < |ms|
    ensures var out, w, m := Sweep(u, ms, drop, n, true), Written(u, ms, drop, n), ms[n];
            Written(u, ms, drop, n + 1) ==
              if Name(u, m) in drop then w
              else if out == [] then w + KeyValue(m) else w + ([COMMA] + m.before + KeyValue(m))
  {
    hide Name, KeyValue, Sweep, Kept;
    SweepKeeps(u, ms, drop, n, true);
    var w := Written(u, ms, drop, n);
    assert w + [] == w && [] + KeyValue(ms[n]) == KeyValue(ms[n]);
  }

  lemma {:induction false} WrittenIs(u: Unquote, ms: seq<Member>, drop: set<string>, n: nat)
    requires n <= |ms| && ms != []
    ensures WrittenSoFar(ms[0].before, Written(u, ms, drop, n), Sweep(u, ms, drop, n, true))
  {
    hide Name, KeyValue, Members, Closed, Kept, Sweep, Written;
    if n == 0 {
      NothingWritten(u, ms, drop);
    } else {
      WrittenIs(u, ms, drop, n - 1);
      SweepStep(u, ms, drop, n - 1);
      WrittenStep(u, ms, drop, n - 1);
      var out, m := Sweep(u, ms, drop, n - 1, true), ms[n - 1];
      var w := Written(u, ms, drop, n - 1);
      if Name(u, m) in drop {
        ClosedKeeps(out, m.after);
        ClosedTwice(out, m.after, []);
      } else if out == [] {
        FirstWritten(m, ms[0].before);
        ClosedKeeps([m.(before := ms[0].before)], []);
        assert [] + KeyValue(m) == KeyValue(m);
      } else {
        NextWritten(out, m, ms[0].before, w);
      }
    }
  }

  lemma NothingWritten(u: Unquote, ms: seq<Member>, drop: set<string>)
    ensures Written(u, ms, drop, 0) == [] && Sweep(u, ms, drop, 0, true) == []
  {
  }

  lemma ClosedKeeps(ms: seq<Member>, after: Bytes)
    ensures Closed(ms, after) == [] <==> ms == []
  {
  }

  /** The object that the one pass leaves when it drops something. */
  ghost function OnceBytes(u: Unquote, pre: Bytes, ms: seq<Member>, inner: Bytes, post: Bytes, drop: set<string>): Bytes {
    ObjectBytes(pre, Sweep(u, ms, drop, |ms|, true), SweptInner(u, ms, drop, inner), post)
  }

  /** An object around the bytes of its members. */
  lemma OnceSplit(u: Unquote, pre: Bytes, ms: seq<Member>, inner: Bytes, post: Bytes, drop: set<string>)
    requires ms != []
    ensures OnceBytes(u, pre, ms, inner, post, drop) ==
              pre + [LBRACE] + ms[0].before + Written(u, ms, drop, |ms|) + ms[|ms| - 1].after + [RBRACE] + post
  {
    hide Name, KeyValue, Members, Closed, MemberBytes, Written, Sweep, Kept;
    var out, w := Sweep(u, ms, drop, |ms|, true), Written(u, ms, drop, |ms|);
    var b, a := ms[0].before, ms[|ms| - 1].after;
    WrittenIs(u, ms, drop, |ms|);
    SweepKeeps(u, ms, drop, |ms|, true);
    if out == [] {
      assert OnceBytes(u, pre, ms, inner, post, drop) == pre + ([LBRACE] + (b + a) + [RBRACE]) + post;
      assert pre + ([LBRACE] + (b + a) + [RBRACE]) + post == pre + [LBRACE] + b + w + a + [RBRACE] + post;
    } else {
      Reopened(out);
      assert pre + ([LBRACE] + (b + w + a) + [RBRACE]) + post == pre + [LBRACE] + b + w + a + [RBRACE] + post;
    }
  }

  lemma Reopened(out: seq<Member>)
    requires out != []
    ensures Members(out) == Members(Closed(out, [])) + out[|out| - 1].after
  {
    hide Members, MemberBytes, Left, Right;
    var i := |out| - 1;
    var shut := Closed(out, []);
    MembersSplit(out, i);
    MembersSplit(shut, i);
    assert shut[..i] == out[..i] && shut[i + 1..] == [] && out[i + 1..] == [];
    assert Right([]) == [] by { RightNone(); }
    Unshut(out[i]);
  }

  lemma RightNone()
    ensures Right([]) == []
  {
  }

  lemma Unshut(m: Member)
    ensures MemberBytes(m) == MemberBytes(m.(after := [])) + m.after
  {
    hide KeyValue;
    MemberIs(m);
    MemberIs(m.(after := []));
    SameKeyValue(m, m.(after := []));
  }

  lemma SweptIs(c: Codec, pre: Bytes, ms: seq<Member>, inner: Bytes, post: Bytes, drop: set<string>)
    requires StrictObject(c, pre, ms, inner, post) && ms != []
    ensures var raw := ObjectBytes(pre, ms, inner, post);
            var sp := ObjectSpans(c.unquote, raw);
            && sp.Some? && sp.value.order == Names(c.unquote, ms) && AllFit(raw, sp.value.spans)
            && (forall k :: k in sp.value.order ==> k in sp.value.spans)
            && Swept(raw, sp.value, drop) == OnceBytes(c.unquote, pre, ms, inner, post, drop)
  {
    hide ObjectBytes, StrictObject, SpanMap, SpanOf, Name, Names, Written, OnceBytes, Fits, AllFit, Pieces, Retained, ObjectSpans, Kept;
    var u, raw, n := c.unquote, ObjectBytes(pre, ms, inner, post), |ms| - 1;
    ObjectSpansAre(c, pre, ms, inner, post);
    SpansFit(c, pre, ms, inner, post);
    PiecesAre(c, pre, ms, inner, post, drop, |ms|);
    RetainedNames(u, ms, drop, |ms|);
    assert ms[..|ms|] == ms;
    OnceSplit(u, pre, ms, inner, post, drop);
    OuterCuts(pre, ms, inner, post);
    Ends(pre, ms[0].before, Written(u, ms, drop, |ms|), ms[n].after, post);
  }

  lemma Ends(pre: Bytes, b: Bytes, w: Bytes, a: Bytes, post: Bytes)
    ensures (pre + [LBRACE] + b) + w + (a + [RBRACE] + post) == pre + [LBRACE] + b + w + a + [RBRACE] + post
  {
  }

  lemma OuterCuts(pre: Bytes, ms: seq<Member>, inner: Bytes, post: Bytes)
    requires ms != []
    ensures var raw, first, last := ObjectBytes(pre, ms, inner, post), SpanOf(ms, 0, |pre| + 1), SpanOf(ms, |ms| - 1, |pre| + 1);
            && Fits(first, raw) && Fits(last, raw)
            && raw[..first.keyStart] == pre + [LBRACE] + ms[0].before
            && raw[last.valEnd..] == ms[|ms| - 1].after + [RBRACE] + post
  {
    hide ObjectBytes, SpanOf, Fits, KeyValue, MemberHead;
    SpanCuts(pre, ms, inner, post, 0);
    SpanCuts(pre, ms, inner, post, |ms| - 1);
    assert Ahead(pre, ms, 0) == pre + [LBRACE];
    assert Behind(ms, |ms| - 1, post) == [RBRACE] + post;
  }

  lemma {:induction false} SweepOk(u: Unquote, ms: seq<Member>, drop: set<string>, n: nat, tight: bool)
    requires n <= |ms| && MembersOk(ms)
    ensures MembersOk(Sweep(u, ms, drop, n, tight))
  {
    hide Name, Names, ValueOk, Blank;
    assert Blank([]) by { NoBlank(); }
    if n > 0 {
      SweepOk(u, ms, drop, n - 1, tight);
      assert MemberOk(ms[n - 1]) && MemberOk(ms[0]);
      var out := Sweep(u, ms, drop, n - 1, tight);
      assert out != [] ==> MemberOk(out[|out| - 1]);
    }
  }

  lemma NoBlank()
    ensures Blank([])
  {
  }

  lemma {:induction false} KeptFrom(u: Unquote, ms: seq<Member>, drop: set<string>, n: nat)
    requires n <= |ms|
    ensures forall i :: 0 <= i < |Kept(u, ms, drop, n)| ==> Kept(u, ms, drop, n)[i] in ms[..n]
    ensures |Kept(u, ms, drop, n)| <= n
    ensures |Kept(u, ms, drop, n)| == n <==> forall i :: 0 <= i < n ==> Name(u, ms[i]) !in drop
  {
    hide Name;
    if n > 0 {
      KeptFrom(u, ms, drop, n - 1);
      assert ms[..n] == ms[..n - 1] + [ms[n - 1]];
    }
  }

  lemma {:induction false} RetainedDistinct(order: seq<string>, drop: set<string>)
    requires Distinct(order)
    ensures Distinct(Retained(order, drop))
  {
    if order != [] {
      var n := |order| - 1;
      RetainedDistinct(order[..n], drop);
      assert order[n] !in order[..n];
    }
  }

  /** The names and values of the swept members are those of the members that stay. */
  lemma SweepNames(u: Unquote, ms: seq<Member>, drop: set<string>, tight: bool)
    ensures var out := Sweep(u, ms, drop, |ms|, tight);
            && Names(u, out) == Retained(Names(u, ms), drop)
            && |out| == |Kept(u, ms, drop, |ms|)|
            && forall i :: 0 <= i < |out| ==>
                 out[i].value == Kept(u, ms, drop, |ms|)[i].value && out[i].key == Kept(u, ms, drop, |ms|)[i].key
  {
    hide Name, Names, Retained, Sweep, Kept;
    SweepKeeps(u, ms, drop, |ms|, tight);
    RetainedNames(u, ms, drop, |ms|);
    assert ms[..|ms|] == ms;
    SameNames(u, Sweep(u, ms, drop, |ms|, tight), Kept(u, ms, drop, |ms|));
  }

  lemma SweepStrict(c: Codec, pre: Bytes, ms: seq<Member>, inner: Bytes, post: Bytes, drop: set<string>, tight: bool)
    requires StrictObject(c, pre, ms, inner, post)
    ensures StrictObject(c, pre, Sweep(c.unquote, ms, drop, |ms|, tight), SweptInner(c.unquote, ms, drop, inner), post)
  {
    hide StrictObject, Strict, ValueOk, Names, Name, Distinct, Retained, Sweep, Kept;
    var u := c.unquote;
    ObjectFacts(c, pre, ms, inner, post);
    SweepOk(u, ms, drop, |ms|, tight);
    SweepNames(u, ms, drop, tight);
    RetainedDistinct(Names(u, ms), drop);
    var out, kept := Sweep(u, ms, drop, |ms|, tight), Kept(u, ms, drop, |ms|);
    KeptFrom(u, ms, drop, |ms|);
    forall i | 0 <= i < |out| ensures Strict(c, out[i].value) && c.goodString(out[i].key) {
      assert kept[i] in ms;
      assert out[i].value == kept[i].value && out[i].key == kept[i].key;
    }
    assert ms != [] ==> MemberOk(ms[0]) && MemberOk(ms[|ms| - 1]);
    SoundOf(c, pre, ms, inner, post);
    ObjectFrom(c, pre, out, SweptInner(u, ms, drop, inner), post);
  }

  /** The one pass leaves the bytes alone when no name is present, and the tight sweep otherwise. */
  lemma OnceIs(c: Codec, pre: Bytes, ms: seq<Member>, inner: Bytes, post: Bytes, keys: seq<string>)
    requires StrictObject(c, pre, ms, inner, post)
    ensures var drop := KeySet(keys);
            DeleteMembers(c, ObjectBytes(pre, ms, inner, post), keys) ==
              Some(if |Kept(c.unquote, ms, drop, |ms|)| == |ms| then ObjectBytes(pre, ms, inner, post)
                   else OnceBytes(c.unquote, pre, ms, inner, post, drop))
  {
    hide ObjectBytes, StrictObject, SpanMap, Names, Name, Retained, Kept, ObjectSpans, Swept, Checked, Sweep, SweptInner, AllFit;
    var drop := KeySet(keys);
    ObjectSpansAre(c, pre, ms, inner, post);
    SpansFit(c, pre, ms, inner, post);
    RetainedNames(c.unquote, ms, drop, |ms|);
    assert ms[..|ms|] == ms;
    KeptFrom(c.unquote, ms, drop, |ms|);
    if |Kept(c.unquote, ms, drop, |ms|)| != |ms| {
      SweptIs(c, pre, ms, inner, post, drop);
      SweepStrict(c, pre, ms, inner, post, drop, true);
      CheckedObject(c, pre, Sweep(c.unquote, ms, drop, |ms|, true), SweptInner(c.unquote, ms, drop, inner), post);
    }
  }

  // ----- what both leave behind -----

  lemma LexemesSnoc(u: Unquote, ms: seq<Member>, m: Member)
    ensures Lexemes(u, ms + [m]) == Lexemes(u, ms)[Name(u, m) := Render(m.value)]
  {
    hide Name, Render;
    assert (ms + [m])[..|ms|] == ms;
  }

  lemma DropUpdate(a: map<string, Bytes>, k: string, v: Bytes, drop: set<string>)
    ensures a[k := v] - drop == if k in drop then a - drop else (a - drop)[k := v]
  {
  }

  lemma KeptSnoc(u: Unquote, ms: seq<Member>, drop: set<string>, n: nat)
    requires n < |ms|
    ensures Kept(u, ms, drop, n + 1) == if Name(u, ms[n]) in drop then Kept(u, ms, drop, n) else Kept(u, ms, drop, n) + [ms[n]]
  {
    hide Name;
    assert Kept(u, ms, drop, n) + [] == Kept(u, ms, drop, n);
  }

  lemma {:induction false} SweptLexemes(u: Unquote, ms: seq<Member>, drop: set<string>, n: nat)
    requires n <= |ms|
    ensures Lexemes(u, Kept(u, ms, drop, n)) == Lexemes(u, ms[..n]) - drop
  {
    hide Name, Render, Lexemes, Kept;
    if n == 0 {
      NothingSwept(u, ms, drop);
    } else {
      var kept, m := Kept(u, ms, drop, n - 1), ms[n - 1];
      SweptLexemes(u, ms, drop, n - 1);
      KeptSnoc(u, ms, drop, n - 1);
      LexemesSnoc(u, kept, m);
      assert ms[..n] == ms[..n - 1] + [m];
      LexemesSnoc(u, ms[..n - 1], m);
      DropUpdate(Lexemes(u, ms[..n - 1]), Name(u, m), Render(m.value), drop);
    }
  }

  lemma NothingSwept(u: Unquote, ms: seq<Member>, drop: set<string>)
    ensures Lexemes(u, Kept(u, ms, drop, 0)) == Lexemes(u, ms[..0]) - drop
  {
    assert ms[..0] == [];
  }

  /** Same members, same values: same lexemes. */
  lemma {:induction false} SameLexemes(u: Unquote, a: seq<Member>, b: seq<Member>)
    requires |a| == |b| && forall i :: 0 <= i < |a| ==> a[i].key == b[i].key && a[i].value == b[i].value
    ensures Lexemes(u, a) == Lexemes(u, b)
    decreases |a|
  {
    hide Render;
    if a != [] {
      SameLexemes(u, a[..|a| - 1], b[..|b| - 1]);
    }
  }

  lemma SweptView(c: Codec, pre: Bytes, ms: seq<Member>, inner: Bytes, post: Bytes, drop: set<string>, tight: bool)
    requires StrictObject(c, pre, ms, inner, post)
    ensures ObjectView(c.unquote, ObjectBytes(pre, Sweep(c.unquote, ms, drop, |ms|, tight), SweptInner(c.unquote, ms, drop, inner), post))
              == Some((Retained(Names(c.unquote, ms), drop), Lexemes(c.unquote, ms) - drop))
  {
    hide *;
    var u := c.unquote;
    var out := Sweep(u, ms, drop, |ms|, tight);
    SweepStrict(c, pre, ms, inner, post, drop, tight);
    ViewOf(c, pre, out, SweptInner(u, ms, drop, inner), post);
    ViewOf(c, pre, ms, inner, post);
    SweepNames(u, ms, drop, tight);
    SweepKeeps(u, ms, drop, |ms|, tight);
    CoreLexemes(u, out, Kept(u, ms, drop, |ms|));
    SweptLexemes(u, ms, drop, |ms|);
    assert ms[..|ms|] == ms;
  }

  lemma CoreLexemes(u: Unquote, a: seq<Member>, b: seq<Member>)
    requires |a| == |b| && forall i :: 0 <= i < |a| ==> SameCore(a[i], b[i])
    ensures Lexemes(u, a) == Lexemes(u, b)
  {
    hide Lexemes;
    SameLexemes(u, a, b);
  }

  /**
   One pass or one by one, in any order: exactly the named members are gone, the others keep
   their order and the bytes of their values.
   */
  lemma BothDeletesAgree(c: Codec, raw: Bytes, keys: seq<string>)
    requires Sound(c) && ValidObject(c, raw) && forall k :: k in keys ==> c.validKey(k)
    ensures var was, once, each := ObjectView(c.unquote, raw), DeleteMembers(c, raw, keys), DeleteEach(c, raw, keys);
            var drop := KeySet(keys);
            && was.Some? && once.Some? && each.Some?
            && ObjectView(c.unquote, once.value) == Some((Retained(was.value.0, drop), was.value.1 - drop))
            && ObjectView(c.unquote, each.value) == Some((Retained(was.value.0, drop), was.value.1 - drop))
  {
    hide *;
    var pre, ms, inner, post := Parsed(c, raw);
    var drop := KeySet(keys);
    ViewOf(c, pre, ms, inner, post);
    EachView(c, pre, ms, inner, post, keys);
    OnceView(c, pre, ms, inner, post, keys);
  }

  lemma EachView(c: Codec, pre: Bytes, ms: seq<Member>, inner: Bytes, post: Bytes, keys: seq<string>)
    requires StrictObject(c, pre, ms, inner, post) && forall k :: k in keys ==> c.validKey(k)
    ensures var out, drop := DeleteEach(c, ObjectBytes(pre, ms, inner, post), keys), KeySet(keys);
            out.Some? && ObjectView(c.unquote, out.value) == Some((Retained(Names(c.unquote, ms), drop), Lexemes(c.unquote, ms) - drop))
  {
    hide StrictObject, DeleteEach, Sweep, Kept, SweptInner, ObjectBytes, ObjectView, Retained, Lexemes, Names;
    EachIs(c, pre, ms, inner, post, keys);
    SweptView(c, pre, ms, inner, post, KeySet(keys), false);
  }

  lemma OnceView(c: Codec, pre: Bytes, ms: seq<Member>, inner: Bytes, post: Bytes, keys: seq<string>)
    requires StrictObject(c, pre, ms, inner, post)
    ensures var out, drop := DeleteMembers(c, ObjectBytes(pre, ms, inner, post), keys), KeySet(keys);
            out.Some? && ObjectView(c.unquote, out.value) == Some((Retained(Names(c.unquote, ms), drop), Lexemes(c.unquote, ms) - drop))
  {
    hide StrictObject, DeleteMembers, Sweep, Kept, SweptInner, ObjectBytes, ObjectView, Retained, Lexemes, Names, Name;
    var u, drop := c.unquote, KeySet(keys);
    OnceIs(c, pre, ms, inner, post, keys);
    SweptView(c, pre, ms, inner, post, drop, true);
    KeptFrom(u, ms, drop, |ms|);
    if |Kept(u, ms, drop, |ms|)| == |ms| {
      SweepNone(u, ms, drop, |ms|);
      assert ms[..|ms|] == ms;
      SweptView(c, pre, ms, inner, post, drop, false);
      InnerKept(u, ms, drop, inner);
    }
  }

  lemma InnerKept(u: Unquote, ms: seq<Member>, drop: set<string>, inner: Bytes)
    requires |Kept(u, ms, drop, |ms|)| == |ms|
    ensures SweptInner(u, ms, drop, inner) == inner
  {
  }

  lemma KeyIn(keys: seq<string>, k: string)
    ensures k in KeySet(keys) <==> k in keys
  {
  }

  /** The order in which names are deleted does not change a byte. */
  lemma EachIgnoresOrder(c: Codec, raw: Bytes, a: seq<string>, b: seq<string>)
    requires Sound(c) && ValidObject(c, raw) && (forall k :: k in a ==> c.validKey(k))
    requires KeySet(a) == KeySet(b)
    ensures DeleteEach(c, raw, a) == DeleteEach(c, raw, b)
  {
    hide *;
    var pre, ms, inner, post := Parsed(c, raw);
    EachIs(c, pre, ms, inner, post, a);
    forall k | k in b ensures c.validKey(k) {
      assert k in KeySet(b) && k in KeySet(a) by { KeyIn(b, k); }
      KeyIn(a, k);
    }
    EachIs(c, pre, ms, inner, post, b);
  }

  // ----- when the bytes agree -----

  /** No whitespace stands before the comma of a survivor other than the first. */
  ghost predicate TightCommas(u: Unquote, ms: seq<Member>, drop: set<string>, n: nat)
    requires n <= |ms|
  {
    forall i :: 0 < i < n && Name(u, ms[i]) !in drop && Kept(u, ms, drop, i) != [] ==> ms[i - 1].after == []
  }

  /** How much whitespace stands there. */
  ghost function Lost(u: Unquote, ms: seq<Member>, drop: set<string>, n: nat): nat
    requires n <= |ms|
  {
    if n <= 1 then 0
    else
      Lost(u, ms, drop, n - 1)
      + (if Name(u, ms[n - 1]) !in drop && Kept(u, ms, drop, n - 1) != [] then |ms[n - 2].after| else 0)
  }

  lemma {:induction false} LostNothing(u: Unquote, ms: seq<Member>, drop: set<string>, n: nat)
    requires n <= |ms|
    ensures Lost(u, ms, drop, n) == 0 <==> TightCommas(u, ms, drop, n)
  {
    hide Name, Kept;
    if n > 1 {
      LostNothing(u, ms, drop, n - 1);
      assert TightCommas(u, ms, drop, n) <==>
             TightCommas(u, ms, drop, n - 1)
             && (Name(u, ms[n - 1]) !in drop && Kept(u, ms, drop, n - 1) != [] ==> ms[n - 2].after == []);
    }
  }

  lemma ClosedSame(out: seq<Member>)
    requires out != [] && out[|out| - 1].after == []
    ensures Closed(out, []) == out
  {
  }

  lemma {:induction false} TightSweep(u: Unquote, ms: seq<Member>, drop: set<string>, n: nat)
    requires n <= |ms| && TightCommas(u, ms, drop, n)
    ensures Sweep(u, ms, drop, n, true) == Sweep(u, ms, drop, n, false)
  {
    hide Name, Kept, Closed;
    if n > 0 {
      assert TightCommas(u, ms, drop, n - 1);
      TightSweep(u, ms, drop, n - 1);
      SweepKeeps(u, ms, drop, n - 1, true);
      var out := Sweep(u, ms, drop, n - 1, true);
      if Name(u, ms[n - 1]) !in drop && out != [] {
        ClosedSame(out);
      }
    }
  }

  /** The length of a member list. */
  ghost function Size(ms: seq<Member>): nat {
    if ms == [] then 0 else |Members(ms)|
  }

  lemma SizeClosed(out: seq<Member>, after: Bytes)
    requires out != []
    ensures Size(Closed(out, after)) == Size(out) - |out[|out| - 1].after| + |after|
  {
    hide Members;
    Reopened(out);
    Reopened(Closed(out, after));
    ClosedTwice(out, after, []);
  }

  lemma SizeSnoc(out: seq<Member>, m: Member)
    requires out != []
    ensures Size(out + [m]) == Size(out) + 1 + |MemberBytes(m)|
  {
    hide Members, MemberBytes;
    MembersJoin(out, [m]);
    OneMember(m);
  }

  /** The two ways differ in length by exactly the whitespace before the survivors' commas. */
  lemma {:induction false} SweepSizes(u: Unquote, ms: seq<Member>, drop: set<string>, n: nat)
    requires n <= |ms|
    ensures Size(Sweep(u, ms, drop, n, false)) == Size(Sweep(u, ms, drop, n, true)) + Lost(u, ms, drop, n)
  {
    hide Name, Kept, Closed, Size, MemberBytes;
    if n > 0 {
      SweepSizes(u, ms, drop, n - 1);
      SweepKeeps(u, ms, drop, n - 1, true);
      SweepKeeps(u, ms, drop, n - 1, false);
      var tight, loose, m := Sweep(u, ms, drop, n - 1, true), Sweep(u, ms, drop, n - 1, false), ms[n - 1];
      if tight == [] {
        ClosedNone(m.after);
        FirstLostNothing(u, ms, drop, n);
      } else if Name(u, m) in drop {
        SizeClosed(tight, m.after);
        SizeClosed(loose, m.after);
      } else {
        SizeClosed(tight, []);
        ClosedKeeps(tight, []);
        SizeSnoc(Closed(tight, []), m);
        SizeSnoc(loose, m);
      }
    }
  }

  lemma FirstLostNothing(u: Unquote, ms: seq<Member>, drop: set<string>, n: nat)
    requires 0 < n <= |ms| && Kept(u, ms, drop, n - 1) == []
    ensures Lost(u, ms, drop, n) == Lost(u, ms, drop, n - 1)
  {
  }

  lemma SizeObject(pre: Bytes, ms: seq<Member>, inner: Bytes, post: Bytes)
    ensures |ObjectBytes(pre, ms, inner, post)| == |pre| + 2 + |post| + (if ms == [] then |inner| else Size(ms))
  {
  }

  lemma SameBytes(u: Unquote, pre: Bytes, ms: seq<Member>, inner: Bytes, post: Bytes, drop: set<string>)
    ensures OnceBytes(u, pre, ms, inner, post, drop) == EachBytes(u, pre, ms, inner, post, drop) <==> TightCommas(u, ms, drop, |ms|)
  {
    hide Name, Kept, Sweep, SweptInner, ObjectBytes, Size, TightCommas;
    var tight, loose, w := Sweep(u, ms, drop, |ms|, true), Sweep(u, ms, drop, |ms|, false), SweptInner(u, ms, drop, inner);
    LostNothing(u, ms, drop, |ms|);
    SweepSizes(u, ms, drop, |ms|);
    SweepKeeps(u, ms, drop, |ms|, true);
    SweepKeeps(u, ms, drop, |ms|, false);
    SizeObject(pre, tight, w, post);
    SizeObject(pre, loose, w, post);
    NoSize();
    if TightCommas(u, ms, drop, |ms|) {
      TightSweep(u, ms, drop, |ms|);
    }
  }

  lemma NoSize()
    ensures Size([]) == 0
  {
  }

  /**
   One pass and one by one give the same bytes exactly when nothing is dropped or no whitespace
   stands before the comma of a survivor other than the first.
   */
  lemma SameBytesIff(c: Codec, pre: Bytes, ms: seq<Member>, inner: Bytes, post: Bytes, keys: seq<string>)
    requires StrictObject(c, pre, ms, inner, post) && forall k :: k in keys ==> c.validKey(k)
    ensures var raw, drop := ObjectBytes(pre, ms, inner, post), KeySet(keys);
            DeleteMembers(c, raw, keys) == DeleteEach(c, raw, keys) <==>
              (forall i :: 0 <= i < |ms| ==> Name(c.unquote, ms[i]) !in drop) || TightCommas(c.unquote, ms, drop, |ms|)
  {
    hide Name, Kept, Sweep, SweptInner, ObjectBytes, StrictObject, TightCommas, DeleteMembers, DeleteEach, OnceBytes;
    var u, drop := c.unquote, KeySet(keys);
    OnceIs(c, pre, ms, inner, post, keys);
    EachIs(c, pre, ms, inner, post, keys);
    KeptFrom(u, ms, drop, |ms|);
    SameBytes(u, pre, ms, inner, post, drop);
    if |Kept(u, ms, drop, |ms|)| == |ms| {
      SweepNone(u, ms, drop, |ms|);
      assert ms[..|ms|] == ms;
      InnerKept(u, ms, drop, inner);
    }
  }

  /** The members of `{"a":1 ,"b":2,"c":3}`. */
  function Spaced(): seq<Member> {
    [Member([], [Plain(97)], [], [], Token([49]), [32]),
     Member([], [Plain(98)], [], [], Token([50]), []),
     Member([], [Plain(99)], [], [], Token([51]), [])]
  }

  lemma SpacedOk()
    ensures MembersOk(Spaced())
  {
  }

  lemma SpacedNames(u: Unquote)
    requires u([QUOTE, 97, QUOTE]) == Some("a") && u([QUOTE, 98, QUOTE]) == Some("b") && u([QUOTE, 99, QUOTE]) == Some("c")
    ensures Name(u, Spaced()[0]) == "a" && Name(u, Spaced()[1]) == "b" && Name(u, Spaced()[2]) == "c"
  {
    assert StringText([Plain(97)]) == [QUOTE, 97, QUOTE] && StringText([Plain(98)]) == [QUOTE, 98, QUOTE]
        && StringText([Plain(99)]) == [QUOTE, 99, QUOTE];
  }

  /** The numbers and names of that object are good lexemes. */
  ghost predicate Plainly(c: Codec) {
    && c.goodToken([49]) && c.goodToken([50]) && c.goodToken([51])
    && c.goodString([Plain(97)]) && c.goodString([Plain(98)]) && c.goodString([Plain(99)])
  }

  lemma SpacedStrict(c: Codec)
    requires Sound(c) && Plainly(c)
    requires Name(c.unquote, Spaced()[0]) == "a" && Name(c.unquote, Spaced()[1]) == "b" && Name(c.unquote, Spaced()[2]) == "c"
    ensures StrictObject(c, [], Spaced(), [], [])
  {
    hide Sound, Name, Names, MembersOk, StrictObject;
    SpacedOk();
    var ms, names := Spaced(), Names(c.unquote, Spaced());
    assert names[0] == "a" && names[1] == "b" && names[2] == "c";
    ObjectFrom(c, [], ms, [], []);
  }

  /** The failing case: without `c` the object keeps its space one by one and loses it in one pass. */
  lemma SpaceBeforeCommaIsLost(c: Codec)
    requires Sound(c) && c.validKey("c") && Plainly(c)
    requires c.unquote([QUOTE, 97, QUOTE]) == Some("a") && c.unquote([QUOTE, 98, QUOTE]) == Some("b")
          && c.unquote([QUOTE, 99, QUOTE]) == Some("c")
    ensures var raw := ObjectBytes([], Spaced(), [], []); DeleteMembers(c, raw, ["c"]) != DeleteEach(c, raw, ["c"])
  {
    hide Sound, DeleteMembers, DeleteEach, ObjectBytes, Sweep, Name, StrictObject, KeySet;
    var u, ms, drop := c.unquote, Spaced(), KeySet(["c"]);
    SpacedNames(u);
    SpacedStrict(c);
    SameBytesIff(c, [], ms, [], [], ["c"]);
    assert "c" in drop by { KeyIn(["c"], "c"); }
    assert "a" !in drop by { KeyIn(["c"], "a"); }
    assert "b" !in drop by { KeyIn(["c"], "b"); }
    assert Kept(u, ms, drop, 1) == [ms[0]];
    assert ms[1 - 1].after != [];
  }
}
