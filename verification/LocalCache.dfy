/**
 The in-memory cache with expiry, recency order and two bounds (internal/cache/cache.go:44-235).

 A cache is the sequence of its entries, most recently used first. Strings are sequences of bytes,
 so a length is a size. Each operation is given the clock reading it makes; readings need not grow
 unless a lemma says so.
 */
module LocalCache {
  import opened Wrappers

  /** The default time to live and the two bounds; a bound that is not positive is off. */
  datatype Limits = Limits(ttl: int, maxEntries: int, maxBytes: int)

  datatype Entry = Entry(key: string, value: string, expiresAt: int)

  type Entries = seq<Entry>

  function Size(key: string, value: string): nat {
    |key| + |value|
  }

  function Total(es: Entries): nat {
    if es == [] then 0 else Total(es[..|es| - 1]) + Size(es[|es| - 1].key, es[|es| - 1].value)
  }

  function Keep(es: Entries, p: Entry -> bool): (r: Entries)
    ensures |r| <= |es|
    ensures forall e :: e in r <==> e in es && p(e)
  {
    if es == [] then []
    else Keep(es[..|es| - 1], p) + (if p(es[|es| - 1]) then [es[|es| - 1]] else [])
  }

  function NotKey(key: string): Entry -> bool {
    (e: Entry) => e.key != key
  }

  function FreshAt(now: int): Entry -> bool {
    (e: Entry) => now < e.expiresAt
  }

  function Drop(es: Entries, key: string): Entries {
    Keep(es, NotKey(key))
  }

  predicate Distinct(es: Entries) {
    forall i, j :: 0 <= i < j < |es| ==> es[i].key != es[j].key
  }

  function Find(es: Entries, key: string): (r: Option<Entry>)
    ensures r.Some? ==> r.value in es && r.value.key == key
    ensures r.None? ==> forall e :: e in es ==> e.key != key
  {
    if es == [] then None
    else if es[|es| - 1].key == key then Some(es[|es| - 1]) else Find(es[..|es| - 1], key)
  }

  predicate Over(lim: Limits, es: Entries) {
    (lim.maxEntries > 0 && |es| > lim.maxEntries) || (lim.maxBytes > 0 && Total(es) > lim.maxBytes)
  }

  /** Evict from the back until the bounds hold: the longest prefix that fits. */
  function Fit(lim: Limits, es: Entries): (r: Entries)
    ensures |r| <= |es| && r == es[..|r|] && !Over(lim, r)
    ensures forall n :: |r| < n <= |es| ==> Over(lim, es[..n])
  {
    if Over(lim, es) then
      assert es[..|es|] == es;
      assert forall n :: 0 <= n < |es| ==> es[..|es| - 1][..n] == es[..n];
      Fit(lim, es[..|es| - 1])
    else es
  }

  // ----- operations -----

  datatype Op =
    | Set(key: string, value: string, ttl: int, now: int)
    | Get(key: string, now: int)
    | Delete(key: string)
    | Evict(now: int)

  /** A Set is refused when its ttl is negative or the entry alone exceeds the byte bound. */
  predicate Admits(lim: Limits, op: Op)
    requires op.Set?
  {
    op.ttl >= 0 && !(lim.maxBytes > 0 && Size(op.key, op.value) > lim.maxBytes)
  }

  function Written(lim: Limits, op: Op): Entry
    requires op.Set?
  {
    Entry(op.key, op.value, op.now + if op.ttl == 0 then lim.ttl else op.ttl)
  }

  function Apply(lim: Limits, es: Entries, op: Op): Entries {
    match op
    case Set(key, _, _, _) => if Admits(lim, op) then Fit(lim, [Written(lim, op)] + Drop(es, key)) else es
    case Get(key, now) =>
      var e := Find(es, key);
      if e.None? then es
      else if now < e.value.expiresAt then [e.value] + Drop(es, key) else Drop(es, key)
    case Delete(key) => Drop(es, key)
    case Evict(now) => Keep(es, FreshAt(now))
  }

  /** What a Get answers. */
  function Hit(es: Entries, key: string, now: int): Option<string> {
    var e := Find(es, key);
    if e.Some? && now < e.value.expiresAt then Some(e.value.value) else None
  }

  function Run(lim: Limits, ops: seq<Op>): Entries {
    if ops == [] then [] else Apply(lim, Run(lim, ops[..|ops| - 1]), ops[|ops| - 1])
  }

  // ----- filtering -----

  lemma KeepSnoc(es: Entries, e: Entry, p: Entry -> bool)
    ensures Keep(es + [e], p) == if p(e) then Keep(es, p) + [e] else Keep(es, p)
  {
    assert (es + [e])[..|es|] == es;
  }

  lemma TotalSnoc(es: Entries, e: Entry)
    ensures Total(es + [e]) == Total(es) + Size(e.key, e.value)
  {
    assert (es + [e])[..|es|] == es;
  }

  lemma {:induction false} KeepTotal(es: Entries, p: Entry -> bool)
    ensures Total(Keep(es, p)) <= Total(es)
  {
    hide Keep;
    if es == [] {
    } else {
      var init, last := es[..|es| - 1], es[|es| - 1];
      assert es == init + [last];
      KeepTotal(init, p);
      KeepSnoc(init, last, p);
      TotalSnoc(Keep(init, p), last);
    }
  }

  lemma {:induction false} KeepDistinct(es: Entries, p: Entry -> bool)
    requires Distinct(es)
    ensures Distinct(Keep(es, p))
  {
    if es != [] {
      var init, last := es[..|es| - 1], es[|es| - 1];
      KeepDistinct(init, p);
      assert forall e :: e in init ==> e.key != last.key;
    }
  }

  lemma KeepNone(p: Entry -> bool)
    ensures Keep([], p) == []
  {
  }

  lemma {:induction false} KeepConcat(a: Entries, b: Entries, p: Entry -> bool)
    ensures Keep(a + b, p) == Keep(a, p) + Keep(b, p)
  {
    hide Keep;
    if b == [] {
      assert a + b == a;
      KeepNone(p);
    } else {
      var init, last := b[..|b| - 1], b[|b| - 1];
      assert a + b == (a + init) + [last] && b == init + [last];
      KeepConcat(a, init, p);
      KeepSnoc(a + init, last, p);
      KeepSnoc(init, last, p);
      var x, y := Keep(a, p), Keep(init, p);
      assert x + y + [last] == x + (y + [last]);
    }
  }

  lemma KeepOne(e: Entry, p: Entry -> bool)
    ensures Keep([e], p) == if p(e) then [e] else []
  {
    hide Keep;
    KeepNone(p);
    KeepSnoc([], e, p);
    assert [] + [e] == [e];
  }

  lemma {:induction false} KeepSwap(es: Entries, p: Entry -> bool, q: Entry -> bool)
    ensures Keep(Keep(es, p), q) == Keep(Keep(es, q), p)
  {
    hide Keep;
    if es == [] {
      KeepNone(p);
      KeepNone(q);
    } else {
      var init, last := es[..|es| - 1], es[|es| - 1];
      assert es == init + [last];
      KeepSwap(init, p, q);
      KeepSnoc(init, last, p);
      KeepSnoc(init, last, q);
      KeepSnoc(Keep(init, p), last, q);
      KeepSnoc(Keep(init, q), last, p);
    }
  }

  lemma {:induction false} KeepSame(es: Entries, p: Entry -> bool, q: Entry -> bool)
    requires forall e :: e in es ==> (p(e) <==> q(e))
    ensures Keep(es, p) == Keep(es, q)
  {
    hide Keep;
    if es == [] {
      KeepNone(p);
      KeepNone(q);
    } else {
      var init, last := es[..|es| - 1], es[|es| - 1];
      assert es == init + [last];
      KeepSame(init, p, q);
      KeepSnoc(init, last, p);
      KeepSnoc(init, last, q);
    }
  }

  lemma {:induction false} KeepAll(es: Entries, p: Entry -> bool)
    requires forall e :: e in es ==> p(e)
    ensures Keep(es, p) == es
  {
    hide Keep;
    if es == [] {
      KeepNone(p);
    } else {
      var init, last := es[..|es| - 1], es[|es| - 1];
      assert es == init + [last];
      KeepAll(init, p);
      KeepSnoc(init, last, p);
    }
  }

  // ----- the bounds, on the bytes themselves -----

  /** The bytes of all keys and values. */
  ghost function Weight(es: Entries): nat {
    if es == [] then 0 else |es[0].key| + |es[0].value| + Weight(es[1..])
  }

  ghost predicate Bounded(lim: Limits, es: Entries) {
    (lim.maxEntries > 0 ==> |es| <= lim.maxEntries) && (lim.maxBytes > 0 ==> Weight(es) <= lim.maxBytes)
  }

  lemma {:induction false} TotalIsWeight(es: Entries)
    ensures Total(es) == Weight(es)
  {
    if es != [] {
      TotalIsWeight(es[1..]);
      TotalCons(es[0], es[1..]);
      assert es == [es[0]] + es[1..];
    }
  }

  lemma OverMeans(lim: Limits, es: Entries)
    ensures Over(lim, es) <==> !Bounded(lim, es)
  {
    TotalIsWeight(es);
  }

  // ----- what every run keeps -----

  /** Keys are unique and the bounds hold. */
  ghost predicate Inv(lim: Limits, es: Entries) {
    Distinct(es) && !Over(lim, es)
  }

  lemma {:induction false} TotalCons(e: Entry, es: Entries)
    ensures Total([e] + es) == Size(e.key, e.value) + Total(es)
  {
    if es == [] {
      assert [e] + es == [] + [e];
      TotalSnoc([], e);
    } else {
      assert [e] + es == ([e] + es[..|es| - 1]) + [es[|es| - 1]];
      TotalCons(e, es[..|es| - 1]);
      TotalSnoc([e] + es[..|es| - 1], es[|es| - 1]);
    }
  }

  /** Taking one entry out leaves the sum of the others. */
  ghost predicate TakenOut(es: Entries, key: string) {
    var e := Find(es, key);
    if e.None? then Drop(es, key) == es
    else Total(es) == Total(Drop(es, key)) + Size(key, e.value.value) && |Drop(es, key)| == |es| - 1
  }

  lemma {:induction false} DropTotal(es: Entries, key: string)
    requires Distinct(es)
    ensures TakenOut(es, key)
  {
    hide Keep, Total, TakenOut;
    if es == [] {
      assert TakenOut([], key) by { NothingTaken(key); }
    } else {
      DropTotal(es[..|es| - 1], key);
      assert es == es[..|es| - 1] + [es[|es| - 1]];
      DropLast(es[..|es| - 1], es[|es| - 1], key);
    }
  }

  lemma NothingTaken(key: string)
    ensures TakenOut([], key)
  {
  }

  lemma DropLast(init: Entries, last: Entry, key: string)
    requires Distinct(init + [last]) && TakenOut(init, key)
    ensures TakenOut(init + [last], key)
  {
    hide Keep, Total;
    var es := init + [last];
    assert es[|es| - 1] == last && es[..|es| - 1] == init;
    TotalSnoc(init, last);
    KeepSnoc(init, last, NotKey(key));
    if last.key == key {
      forall e | e in init ensures e.key != key {
        var i :| 0 <= i < |init| && init[i] == e;
        assert es[i] == e && es[|init|] == last;
      }
      KeepAll(init, NotKey(key));
    } else {
      TotalSnoc(Drop(init, key), last);
    }
  }

  lemma FrontDistinct(e: Entry, es: Entries)
    requires Distinct(es)
    ensures Distinct([e] + Drop(es, e.key))
  {
    KeepDistinct(es, NotKey(e.key));
    assert forall x :: x in Drop(es, e.key) ==> x.key != e.key;
  }

  lemma ApplyKeeps(lim: Limits, es: Entries, op: Op)
    requires Inv(lim, es)
    ensures Inv(lim, Apply(lim, es, op))
  {
    hide Keep, Fit;
    match op
    case Set(key, _, _, _) =>
      FrontDistinct(Written(lim, op), es);
    case Get(key, now) =>
      KeepDistinct(es, NotKey(key));
      DropTotal(es, key);
      var e := Find(es, key);
      if e.Some? {
        FrontDistinct(e.value, es);
        TotalCons(e.value, Drop(es, key));
      }
    case Delete(key) =>
      KeepDistinct(es, NotKey(key));
      KeepTotal(es, NotKey(key));
    case Evict(now) =>
      KeepDistinct(es, FreshAt(now));
      KeepTotal(es, FreshAt(now));
  }

  /** After any operations keys are unique and both bounds hold. */
  lemma {:induction false} RunKeeps(lim: Limits, ops: seq<Op>)
    ensures Inv(lim, Run(lim, ops))
  {
    if ops != [] {
      RunKeeps(lim, ops[..|ops| - 1]);
      ApplyKeeps(lim, Run(lim, ops[..|ops| - 1]), ops[|ops| - 1]);
    }
  }

  /** The bounds after any operations, in entries and bytes, with no key held twice. */
  lemma RunIsBounded(lim: Limits, ops: seq<Op>)
    ensures Bounded(lim, Run(lim, ops))
    ensures var es := Run(lim, ops); forall i, j :: 0 <= i < j < |es| ==> es[i].key != es[j].key
  {
    hide Bounded, Run;
    RunKeeps(lim, ops);
    OverMeans(lim, Run(lim, ops));
  }

  /** A Set that is not refused: its ttl is not negative and its bytes alone do not exceed the bound. */
  predicate Writes(lim: Limits, op: Op, key: string) {
    op.Set? && op.key == key && op.ttl >= 0 && (lim.maxBytes > 0 ==> |op.key| + |op.value| <= lim.maxBytes)
  }

  /** When what a Set wrote runs out: after its own ttl, or after the default one if it gave none. */
  function RunsOut(lim: Limits, op: Op): int
    requires op.Set?
  {
    op.now + if op.ttl == 0 then lim.ttl else op.ttl
  }

  /**
   A refused Set changes nothing. Any other puts its entry first, with its own expiry, and keeps
   of the others in recency order the longest prefix that fits; the new entry itself always stays.
   */
  lemma SetKeepsLongestPrefix(lim: Limits, es: Entries, op: Op)
    requires op.Set?
    ensures !Writes(lim, op, op.key) ==> Apply(lim, es, op) == es
    ensures Writes(lim, op, op.key) ==>
              var full, r := [Entry(op.key, op.value, RunsOut(lim, op))] + Drop(es, op.key), Apply(lim, es, op);
              && 0 < |r| <= |full| && r == full[..|r|] && Bounded(lim, r)
              && forall n :: |r| < n <= |full| ==> !Bounded(lim, full[..n])
  {
    hide Keep, Bounded, Over;
    if Writes(lim, op, op.key) {
      var full, r := [Written(lim, op)] + Drop(es, op.key), Apply(lim, es, op);
      OverMeans(lim, r);
      forall n | |r| < n <= |full| ensures !Bounded(lim, full[..n]) {
        OverMeans(lim, full[..n]);
      }
      FirstFits(lim, Written(lim, op));
      assert full[..1] == [Written(lim, op)];
    }
  }

  lemma FirstFits(lim: Limits, e: Entry)
    ensures Over(lim, [e]) <==> lim.maxBytes > 0 && |e.key| + |e.value| > lim.maxBytes
  {
    TotalCons(e, []);
    assert [e] + [] == [e];
  }

  /** What the other operations leave: a Delete all but its key, a sweep what has not run out, a Get all but what it finds run out. */
  lemma OthersLeave(lim: Limits, es: Entries, op: Op, e: Entry)
    requires Distinct(es)
    ensures op.Delete? ==> (e in Apply(lim, es, op) <==> e in es && e.key != op.key)
    ensures op.Evict? ==> (e in Apply(lim, es, op) <==> e in es && op.now < e.expiresAt)
    ensures op.Get? ==> (e in Apply(lim, es, op) <==> e in es && (e.key == op.key ==> op.now < e.expiresAt))
  {
    hide Keep, Find;
  }

  // ----- what a hit means -----

  /** The last admitted Set of a key that no Delete has followed. */
  function Latest(lim: Limits, ops: seq<Op>, key: string): Option<Entry> {
    if ops == [] then None
    else
      var op := ops[|ops| - 1];
      if op.Set? && op.key == key && Admits(lim, op) then Some(Written(lim, op))
      else if op.Delete? && op.key == key then None
      else Latest(lim, ops[..|ops| - 1], key)
  }

  lemma {:induction false} HeldIsLatest(lim: Limits, ops: seq<Op>, e: Entry)
    requires e in Run(lim, ops)
    ensures Latest(lim, ops, e.key) == Some(e)
  {
    hide Keep, Find, Fit;
    if ops != [] {
      var op, es := ops[|ops| - 1], Run(lim, ops[..|ops| - 1]);
      if op.Set? && Admits(lim, op) && e == Written(lim, op) {
      } else {
        assert e in es && !(op.Set? && Admits(lim, op) && op.key == e.key) && !(op.Delete? && op.key == e.key);
        HeldIsLatest(lim, ops[..|ops| - 1], e);
      }
    }
  }

  lemma HitFromLatest(lim: Limits, ops: seq<Op>, key: string, now: int)
    ensures var hit := Hit(Run(lim, ops), key, now);
            hit.Some? ==> var e := Latest(lim, ops, key); e.Some? && hit.value == e.value.value && now < e.value.expiresAt
  {
    hide Run, Latest;
    var e := Find(Run(lim, ops), key);
    if e.Some? {
      HeldIsLatest(lim, ops, e.value);
    }
  }

  /** The operation at `i` wrote the key and nothing after it rewrote or deleted it. */
  ghost predicate Stands(lim: Limits, ops: seq<Op>, key: string, i: nat) {
    && i < |ops| && Writes(lim, ops[i], key)
    && forall j :: i < j < |ops| ==> !Writes(lim, ops[j], key) && !(ops[j].Delete? && ops[j].key == key)
  }

  lemma StandsSnoc(lim: Limits, ops: seq<Op>, op: Op, key: string, i: nat)
    ensures Stands(lim, ops + [op], key, i) <==>
              if i == |ops| then Writes(lim, op, key)
              else Stands(lim, ops, key, i) && !Writes(lim, op, key) && !(op.Delete? && op.key == key)
  {
    hide Writes;
    var all := ops + [op];
    assert all[|ops|] == op && forall j :: 0 <= j < |ops| ==> all[j] == ops[j];
  }

  /** The latest Set, read off the operations by position. */
  lemma {:induction false} LatestStands(lim: Limits, ops: seq<Op>, key: string, i: nat)
    ensures Stands(lim, ops, key, i) ==> Latest(lim, ops, key) == Some(Entry(key, ops[i].value, RunsOut(lim, ops[i])))
    ensures Latest(lim, ops, key).Some? ==> exists k: nat :: Stands(lim, ops, key, k)
  {
    if ops != [] {
      var n := |ops| - 1;
      var init, op := ops[..n], ops[n];
      assert ops == init + [op];
      LatestStands(lim, init, key, i);
      StandsSnoc(lim, init, op, key, i);
      if Writes(lim, op, key) {
        StandsSnoc(lim, init, op, key, n);
      } else if Latest(lim, ops, key).Some? {
        var k: nat :| Stands(lim, init, key, k);
        StandsSnoc(lim, init, op, key, k);
      }
    }
  }

  /**
   A hit is the value of a Set that was not refused and that no later Set or Delete of the key
   followed, and its time, its own ttl or the default one, has not run out.
   */
  lemma HitIsLatest(lim: Limits, ops: seq<Op>, key: string, now: int)
    requires Hit(Run(lim, ops), key, now).Some?
    ensures exists i: nat :: Stands(lim, ops, key, i) && now < RunsOut(lim, ops[i])
              && Hit(Run(lim, ops), key, now) == Some(ops[i].value)
  {
    hide Run, Latest, Stands, Hit;
    HitFromLatest(lim, ops, key, now);
    LatestStands(lim, ops, key, 0);
    var i: nat :| Stands(lim, ops, key, i);
    LatestStands(lim, ops, key, i);
    StandsAt(lim, ops, key, i);
  }

  lemma StandsAt(lim: Limits, ops: seq<Op>, key: string, i: nat)
    requires Stands(lim, ops, key, i)
    ensures i < |ops| && ops[i].Set?
  {
  }

  function Reading(op: Op): Option<int> {
    match op
    case Set(_, _, _, now) => Some(now)
    case Get(_, now) => Some(now)
    case Evict(now) => Some(now)
    case Delete(_) => None
  }

  /** No operation of the run has read a clock beyond `now`. */
  ghost predicate Until(ops: seq<Op>, now: int) {
    forall i :: 0 <= i < |ops| ==> Reading(ops[i]).Some? ==> Reading(ops[i]).value <= now
  }

  lemma StaysIn(lim: Limits, es: Entries, op: Op, e: Entry, now: int)
    requires lim.maxEntries <= 0 && lim.maxBytes <= 0 && e in es && Distinct(es) && now < e.expiresAt
    requires !(op.Set? && op.key == e.key && Admits(lim, op)) && !(op.Delete? && op.key == e.key)
    requires Reading(op).Some? ==> Reading(op).value <= now
    ensures e in Apply(lim, es, op)
  {
    hide Keep, Find;
    match op
    case Set(key, _, _, _) =>
      if Admits(lim, op) {
        assert e in [Written(lim, op)] + Drop(es, key);
      }
    case Get(key, at) =>
      var f := Find(es, key);
      if f.Some? && key == e.key {
        assert f.value == e;
      }
    case Delete(key) =>
    case Evict(at) =>
  }

  /** Without bounds, an entry leaves only by Delete, by a newer Set, or after it has expired. */
  lemma {:induction false} UnboundedHolds(lim: Limits, ops: seq<Op>, key: string, now: int)
    requires lim.maxEntries <= 0 && lim.maxBytes <= 0 && Until(ops, now)
    requires Latest(lim, ops, key).Some? && now < Latest(lim, ops, key).value.expiresAt
    ensures Latest(lim, ops, key).value in Run(lim, ops)
  {
    hide Keep, Find;
    if ops != [] {
      var init, op := ops[..|ops| - 1], ops[|ops| - 1];
      var es, e := Run(lim, init), Latest(lim, ops, key).value;
      LatestKey(lim, ops, key);
      assert ops[|ops| - 1] == op;
      if op.Set? && op.key == key && Admits(lim, op) {
        assert Apply(lim, es, op)[0] == e;
      } else {
        assert Until(init, now) by { assert forall i :: 0 <= i < |init| ==> init[i] == ops[i]; }
        UnboundedHolds(lim, init, key, now);
        assert e in es;
        RunKeeps(lim, init);
        StaysIn(lim, es, op, e, now);
      }
    }
  }

  lemma {:induction false} LatestKey(lim: Limits, ops: seq<Op>, key: string)
    requires Latest(lim, ops, key).Some?
    ensures Latest(lim, ops, key).value.key == key
  {
    if ops != [] && Latest(lim, ops[..|ops| - 1], key).Some? {
      LatestKey(lim, ops[..|ops| - 1], key);
    }
  }

  lemma UnboundedFromLatest(lim: Limits, ops: seq<Op>, key: string, now: int)
    requires lim.maxEntries <= 0 && lim.maxBytes <= 0 && Until(ops, now)
    ensures var e := Latest(lim, ops, key);
            Hit(Run(lim, ops), key, now) == if e.Some? && now < e.value.expiresAt then Some(e.value.value) else None
  {
    hide Run, Latest, Keep;
    HitFromLatest(lim, ops, key, now);
    var e := Latest(lim, ops, key);
    if e.Some? && now < e.value.expiresAt {
      UnboundedHolds(lim, ops, key, now);
      LatestKey(lim, ops, key);
      RunKeeps(lim, ops);
      assert Find(Run(lim, ops), key).Some?;
      assert Find(Run(lim, ops), key).value == e.value;
    }
  }

  /**
   Without bounds and with a clock that does not run back, a Get hits exactly when some Set that
   was not refused stands unreplaced, undeleted and not run out, and answers its value.
   */
  lemma UnboundedHit(lim: Limits, ops: seq<Op>, key: string, now: int)
    requires lim.maxEntries <= 0 && lim.maxBytes <= 0 && Until(ops, now)
    ensures Hit(Run(lim, ops), key, now).Some? <==> exists i: nat :: Stands(lim, ops, key, i) && now < RunsOut(lim, ops[i])
    ensures forall i: nat :: Stands(lim, ops, key, i) && now < RunsOut(lim, ops[i]) ==>
              Hit(Run(lim, ops), key, now) == Some(ops[i].value)
  {
    hide Run, Latest, Stands, Hit, Until;
    UnboundedFromLatest(lim, ops, key, now);
    forall i: nat | Stands(lim, ops, key, i)
      ensures i < |ops| && ops[i].Set?
      ensures now < RunsOut(lim, ops[i]) ==> Hit(Run(lim, ops), key, now) == Some(ops[i].value)
    {
      LatestStands(lim, ops, key, i);
      StandsAt(lim, ops, key, i);
    }
    if Hit(Run(lim, ops), key, now).Some? {
      HitIsLatest(lim, ops, key, now);
    }
  }

  // ----- a larger cache holds more -----

  function KeyAmong(keys: set<string>): Entry -> bool {
    (e: Entry) => e.key in keys
  }

  /** The small cache is the large one with some keys left out, and the large one has at most the extra room filled. */
  ghost predicate Within(small: Limits, large: Limits, s: Entries, l: Entries, keys: set<string>) {
    && s == Keep(l, KeyAmong(keys))
    && (large.maxEntries > 0 ==> |l| - |s| <= large.maxEntries - small.maxEntries)
  }

  /** Same default ttl, no byte bound, and at least as much room for entries. */
  predicate Larger(small: Limits, large: Limits) {
    && small.ttl == large.ttl && small.maxBytes <= 0 && large.maxBytes <= 0
    && (large.maxEntries > 0 ==> 0 < small.maxEntries <= large.maxEntries)
  }

  lemma {:induction false} KeepGap(es: Entries, p: Entry -> bool, q: Entry -> bool)
    ensures |Keep(es, q)| - |Keep(Keep(es, q), p)| <= |es| - |Keep(es, p)|
  {
    hide Keep;
    if es == [] {
      KeepNone(p);
      KeepNone(q);
    } else {
      var init, last := es[..|es| - 1], es[|es| - 1];
      assert es == init + [last];
      KeepGap(init, p, q);
      KeepSnoc(init, last, p);
      KeepSnoc(init, last, q);
      KeepSnoc(Keep(init, q), last, p);
    }
  }

  /** Filtering both caches alike keeps the relation. */
  lemma WithinKeep(small: Limits, large: Limits, s: Entries, l: Entries, keys: set<string>, q: Entry -> bool)
    requires Within(small, large, s, l, keys)
    ensures Within(small, large, Keep(s, q), Keep(l, q), keys)
  {
    KeepSwap(l, KeyAmong(keys), q);
    KeepGap(l, KeyAmong(keys), q);
  }

  lemma KeepFront(e: Entry, es: Entries, keys: set<string>)
    requires forall x :: x in es ==> x.key != e.key
    ensures Keep([e] + es, KeyAmong(keys + {e.key})) == [e] + Keep(es, KeyAmong(keys))
  {
    var p := KeyAmong(keys + {e.key});
    KeepConcat([e], es, p);
    KeepOne(e, p);
    KeepSame(es, p, KeyAmong(keys));
  }

  lemma FitCount(lim: Limits, es: Entries)
    requires lim.maxBytes <= 0
    ensures Fit(lim, es) == if lim.maxEntries > 0 && |es| > lim.maxEntries then es[..lim.maxEntries] else es
  {
    hide Total;
    var r := Fit(lim, es);
    if lim.maxEntries > 0 && |es| > lim.maxEntries {
      assert |r| < lim.maxEntries ==> Over(lim, es[..lim.maxEntries]);
    }
  }

  lemma {:induction false} CutLast(l: Entries, keys: set<string>)
    requires Distinct(l) && Keep(l, KeyAmong(keys)) != []
    ensures var s := Keep(l, KeyAmong(keys)); s[..|s| - 1] == Keep(l, KeyAmong(keys - {s[|s| - 1].key}))
  {
    hide Keep;
    var init, last := l[..|l| - 1], l[|l| - 1];
    assert l == init + [last];
    KeepSnoc(init, last, KeyAmong(keys));
    var s := Keep(l, KeyAmong(keys));
    var cut := KeyAmong(keys - {s[|s| - 1].key});
    KeepSnoc(init, last, cut);
    if last.key in keys {
      assert forall e :: e in init ==> e.key != last.key;
      KeepSame(init, KeyAmong(keys), cut);
    } else {
      CutLast(init, keys);
    }
  }

  /** Admitting the same entry at the front of both keeps the relation. */
  lemma WithinSet(small: Limits, large: Limits, s: Entries, l: Entries, keys: set<string>, e: Entry) returns (after: set<string>)
    requires Larger(small, large) && Within(small, large, s, l, keys) && Inv(small, s) && Inv(large, l)
    ensures Within(small, large, Fit(small, [e] + Drop(s, e.key)), Fit(large, [e] + Drop(l, e.key)), after)
  {
    hide Keep, Fit, Total;
    WithinKeep(small, large, s, l, keys, NotKey(e.key));
    var fs, fl := [e] + Drop(s, e.key), [e] + Drop(l, e.key);
    FrontDistinct(e, l);
    KeepFront(e, Drop(l, e.key), keys);
    FitCount(small, fs);
    FitCount(large, fl);
    after := WithinFit(small, large, fs, fl, keys + {e.key});
  }

  lemma WithinFit(small: Limits, large: Limits, fs: Entries, fl: Entries, keys: set<string>) returns (after: set<string>)
    requires Larger(small, large) && Within(small, large, fs, fl, keys) && Distinct(fl)
    requires small.maxEntries > 0 ==> |fs| <= small.maxEntries + 1
    requires large.maxEntries > 0 ==> |fl| <= large.maxEntries + 1
    ensures Within(small, large,
                   if small.maxEntries > 0 && |fs| > small.maxEntries then fs[..small.maxEntries] else fs,
                   if large.maxEntries > 0 && |fl| > large.maxEntries then fl[..large.maxEntries] else fl, after)
  {
    hide Keep;
    var m1, m2 := small.maxEntries, large.maxEntries;
    if m1 > 0 && |fs| > m1 {
      assert |fs| - 1 == m1;
      if m2 > 0 && |fl| > m2 {
        var init, last := fl[..m2], fl[m2];
        assert fl == init + [last];
        KeepSnoc(init, last, KeyAmong(keys));
        if last.key in keys {
          after := keys;
        } else {
          CutLast(init, keys);
          after := keys - {fs[m1].key};
        }
      } else {
        CutLast(fl, keys);
        after := keys - {fs[m1].key};
      }
    } else {
      after := keys;
    }
  }

  lemma {:induction false} FindWithin(l: Entries, keys: set<string>, key: string)
    requires Distinct(l)
    ensures Find(Keep(l, KeyAmong(keys)), key) == if key in keys then Find(l, key) else None
  {
    var s := Find(Keep(l, KeyAmong(keys)), key);
    var f := Find(l, key);
    if f.Some? && key in keys {
      assert f.value in Keep(l, KeyAmong(keys));
      assert s.value == f.value;
    }
  }

  lemma Untouched(l: Entries, keys: set<string>, key: string)
    requires key !in keys
    ensures Drop(Keep(l, KeyAmong(keys)), key) == Keep(l, KeyAmong(keys))
  {
    hide Keep;
    KeepAll(Keep(l, KeyAmong(keys)), NotKey(key));
  }

  lemma WithinGet(small: Limits, large: Limits, s: Entries, l: Entries, keys: set<string>, op: Op)
    requires Larger(small, large) && Within(small, large, s, l, keys) && Inv(small, s) && Inv(large, l) && op.Get?
    ensures Within(small, large, Apply(small, s, op), Apply(large, l, op), keys)
  {
    hide Keep, Total, Find;
    FindWithin(l, keys, op.key);
    var f := Find(l, op.key);
    if f.Some? {
      WithinKeep(small, large, s, l, keys, NotKey(op.key));
      if op.key in keys {
        KeepFront(f.value, Drop(l, op.key), keys);
        assert keys + {op.key} == keys;
      } else {
        Untouched(l, keys, op.key);
        DropTotal(l, op.key);
        KeepConcat([f.value], Drop(l, op.key), KeyAmong(keys));
        KeepOne(f.value, KeyAmong(keys));
      }
    }
  }

  lemma {:induction false} RunsWithin(small: Limits, large: Limits, ops: seq<Op>) returns (keys: set<string>)
    requires Larger(small, large)
    ensures Within(small, large, Run(small, ops), Run(large, ops), keys)
  {
    hide Keep, Fit, Find, Inv, Within;
    if ops == [] {
      keys := {};
      EmptyWithin(small, large);
    } else {
      var init, op := ops[..|ops| - 1], ops[|ops| - 1];
      keys := RunsWithin(small, large, init);
      var s, l := Run(small, init), Run(large, init);
      RunKeeps(small, init);
      RunKeeps(large, init);
      match op
      case Set(key, _, _, _) =>
        if Admits(small, op) {
          keys := WithinSet(small, large, s, l, keys, Written(small, op));
        }
      case Get(key, now) =>
        WithinGet(small, large, s, l, keys, op);
      case Delete(key) =>
        WithinKeep(small, large, s, l, keys, NotKey(key));
      case Evict(now) =>
        WithinKeep(small, large, s, l, keys, FreshAt(now));
    }
  }

  lemma EmptyWithin(small: Limits, large: Limits)
    requires Larger(small, large)
    ensures Within(small, large, [], [], {})
  {
  }

  /**
   With only the entry bound, the same operations leave a cache with more room holding every
   entry the smaller one holds.
   */
  lemma LargerHoldsMore(small: Limits, large: Limits, ops: seq<Op>)
    requires Larger(small, large)
    ensures forall e :: e in Run(small, ops) ==> e in Run(large, ops)
    ensures forall key, now :: Hit(Run(small, ops), key, now).Some? ==> Hit(Run(large, ops), key, now) == Hit(Run(small, ops), key, now)
  {
    hide Keep, Find, Run;
    var keys := RunsWithin(small, large, ops);
    RunKeeps(large, ops);
    forall key, now | Hit(Run(small, ops), key, now).Some?
      ensures Hit(Run(large, ops), key, now) == Hit(Run(small, ops), key, now)
    {
      FindWithin(Run(large, ops), keys, key);
    }
  }

  // ----- recency -----

  /** An admitted Set of the key, or a Get that hits it. */
  predicate Uses(lim: Limits, es: Entries, op: Op, key: string) {
    (op.Set? && op.key == key && Admits(lim, op)) || (op.Get? && op.key == key && Hit(es, key, op.now).Some?)
  }

  /** How many operations had been made when the key was last used. */
  function LastUse(lim: Limits, ops: seq<Op>, key: string): (n: nat)
    ensures n <= |ops|
  {
    if ops == [] then 0
    else if Uses(lim, Run(lim, ops[..|ops| - 1]), ops[|ops| - 1], key) then |ops|
    else LastUse(lim, ops[..|ops| - 1], key)
  }

  ghost predicate ByRecency(lim: Limits, ops: seq<Op>, es: Entries) {
    forall i, j :: 0 <= i < j < |es| ==> LastUse(lim, ops, es[i].key) > LastUse(lim, ops, es[j].key)
  }

  lemma RecencySnoc(lim: Limits, ops: seq<Op>, es: Entries, last: Entry)
    ensures ByRecency(lim, ops, es + [last]) <==>
              ByRecency(lim, ops, es) && forall e :: e in es ==> LastUse(lim, ops, e.key) > LastUse(lim, ops, last.key)
  {
    hide LastUse;
    var all := es + [last];
    assert forall i :: 0 <= i < |es| ==> all[i] == es[i];
    if ByRecency(lim, ops, all) {
      forall e | e in es ensures LastUse(lim, ops, e.key) > LastUse(lim, ops, last.key) {
        var i :| 0 <= i < |es| && es[i] == e;
        assert LastUse(lim, ops, all[i].key) > LastUse(lim, ops, all[|es|].key);
      }
      assert ByRecency(lim, ops, es) by {
        assert forall i, j :: 0 <= i < j < |es| ==> LastUse(lim, ops, all[i].key) > LastUse(lim, ops, all[j].key);
      }
    }
  }

  lemma {:induction false} KeepByRecency(lim: Limits, ops: seq<Op>, es: Entries, p: Entry -> bool)
    requires ByRecency(lim, ops, es)
    ensures ByRecency(lim, ops, Keep(es, p))
    decreases |es|
  {
    if es != [] {
      hide LastUse, ByRecency, Keep;
      var init, last := es[..|es| - 1], es[|es| - 1];
      assert es == init + [last];
      RecencySnoc(lim, ops, init, last);
      KeepByRecency(lim, ops, init, p);
      KeepSnoc(init, last, p);
      RecencySnoc(lim, ops, Keep(init, p), last);
    }
  }

  /** An operation that uses none of the listed keys leaves their order. */
  lemma UnusedByRecency(lim: Limits, ops: seq<Op>, op: Op, es: Entries)
    requires ByRecency(lim, ops, es) && forall e :: e in es ==> !Uses(lim, Run(lim, ops), op, e.key)
    ensures ByRecency(lim, ops + [op], es)
    ensures forall e :: e in es ==> LastUse(lim, ops + [op], e.key) <= |ops|
  {
    hide Run, Uses;
    assert (ops + [op])[..|ops|] == ops;
  }

  lemma FrontByRecency(lim: Limits, ops: seq<Op>, op: Op, e: Entry, es: Entries)
    requires ByRecency(lim, ops, es) && Uses(lim, Run(lim, ops), op, e.key)
    requires forall x :: x in es ==> !Uses(lim, Run(lim, ops), op, x.key)
    ensures ByRecency(lim, ops + [op], [e] + es)
  {
    hide Run, Uses;
    UnusedByRecency(lim, ops, op, es);
    assert (ops + [op])[..|ops|] == ops;
    assert LastUse(lim, ops + [op], e.key) == |ops| + 1;
  }

  lemma ApplyByRecency(lim: Limits, ops: seq<Op>, op: Op)
    requires ByRecency(lim, ops, Run(lim, ops))
    ensures ByRecency(lim, ops + [op], Apply(lim, Run(lim, ops), op))
  {
    hide Run, Keep, Fit, ByRecency, LastUse, Find;
    var es := Run(lim, ops);
    match op
    case Set(key, _, _, _) =>
      KeepByRecency(lim, ops, es, NotKey(key));
      if Admits(lim, op) {
        FrontByRecency(lim, ops, op, Written(lim, op), Drop(es, key));
        PrefixByRecency(lim, ops + [op], [Written(lim, op)] + Drop(es, key), |Fit(lim, [Written(lim, op)] + Drop(es, key))|);
      } else {
        UnusedByRecency(lim, ops, op, es);
      }
    case Get(key, now) =>
      KeepByRecency(lim, ops, es, NotKey(key));
      var e := Find(es, key);
      if e.None? {
        UnusedByRecency(lim, ops, op, es);
      } else if now < e.value.expiresAt {
        FrontByRecency(lim, ops, op, e.value, Drop(es, key));
      } else {
        UnusedByRecency(lim, ops, op, Drop(es, key));
      }
    case Delete(key) =>
      KeepByRecency(lim, ops, es, NotKey(key));
      UnusedByRecency(lim, ops, op, Drop(es, key));
    case Evict(now) =>
      KeepByRecency(lim, ops, es, FreshAt(now));
      UnusedByRecency(lim, ops, op, Keep(es, FreshAt(now)));
  }

  lemma PrefixByRecency(lim: Limits, ops: seq<Op>, es: Entries, n: nat)
    requires n <= |es| && ByRecency(lim, ops, es)
    ensures ByRecency(lim, ops, es[..n])
  {
    hide LastUse;
  }

  /** The entries stand in the order of their last use, the latest first. */
  lemma {:induction false} RunByRecency(lim: Limits, ops: seq<Op>)
    ensures ByRecency(lim, ops, Run(lim, ops))
  {
    hide Apply, LastUse;
    if ops != [] {
      var init, op := ops[..|ops| - 1], ops[|ops| - 1];
      RunByRecency(lim, init);
      ApplyByRecency(lim, init, op);
      assert ops == init + [op];
    }
  }
}
