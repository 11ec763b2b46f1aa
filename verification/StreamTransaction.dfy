/**
 The policy transaction over two event sequences (internal/plugin/stream_policy.go:57-233).

 Equal events are paired first - in place, then by first free occurrence - and only what
 remains is compared field by field. `Matched` is that pairing as a function, and
 `ExactEventMatches` computes it with the reservation arrays and wire-key buckets of the
 source.
 */
module StreamTransaction {
  import opened Wrappers
  import opened StreamPolicy

  /** A stream event message, or a nil pointer in the list. */
  datatype Event = Nil | Event(message: Message)

  /** What the host takes from the SDK: the inventory, the event type, and the oneof arm and wire key of an event. */
  datatype Rules = Rules(
    schema: Schema,
    root: string,
    topology: string,
    arm: Message -> string,
    wire: Message -> Option<string>)

  function WireKey(r: Rules, e: Event): Option<string> {
    if e.Nil? then Some("<nil>") else r.wire(e.message)
  }

  // ----- the exact pairing -----

  datatype Match = Match(accepted: nat, returned: nat)

  predicate SameAt(acc: seq<Event>, ret: seq<Event>, i: nat) {
    i < |acc| && i < |ret| && acc[i] == ret[i]
  }

  /** The pairs of the same-position phase below position `n`. */
  function InPlace(acc: seq<Event>, ret: seq<Event>, n: nat): seq<Match> {
    if n == 0 then []
    else if SameAt(acc, ret, n - 1) then InPlace(acc, ret, n - 1) + [Match(n - 1, n - 1)]
    else InPlace(acc, ret, n - 1)
  }

  /** The accepted positions a pairing reserves. */
  function Accs(ms: seq<Match>): set<nat> {
    if ms == [] then {} else Accs(ms[..|ms| - 1]) + {ms[|ms| - 1].accepted}
  }

  /** The returned positions a pairing reserves. */
  function Rets(ms: seq<Match>): set<nat> {
    if ms == [] then {} else Rets(ms[..|ms| - 1]) + {ms[|ms| - 1].returned}
  }

  /** The least free position from `j` on holding an event equal to `e`, or |ret|. */
  function FirstFree(ret: seq<Event>, used: set<nat>, e: Event, j: nat): (r: nat)
    requires j <= |ret|
    ensures j <= r <= |ret|
    ensures r < |ret| ==> ret[r] == e && r !in used
    ensures forall k :: j <= k < r ==> ret[k] != e || k in used
    decreases |ret| - j
  {
    if j == |ret| then j
    else if ret[j] == e && j !in used then j
    else FirstFree(ret, used, e, j + 1)
  }

  /** The pairing after the second phase has handled the accepted events below `n`. */
  function Matched(acc: seq<Event>, ret: seq<Event>, n: nat): seq<Match>
    requires n <= |acc|
  {
    if n == 0 then InPlace(acc, ret, |acc|)
    else
      var ms := Matched(acc, ret, n - 1);
      var j := FirstFree(ret, Rets(ms), acc[n - 1], 0);
      if SameAt(acc, ret, n - 1) || j == |ret| then ms else ms + [Match(n - 1, j)]
  }

  /** An injective pairing of equal events. */
  ghost predicate IsPairing(acc: seq<Event>, ret: seq<Event>, ms: seq<Match>) {
    ms == [] ||
    (var init, m := ms[..|ms| - 1], ms[|ms| - 1];
     && IsPairing(acc, ret, init)
     && m.accepted < |acc| && m.returned < |ret| && acc[m.accepted] == ret[m.returned]
     && m.accepted !in Accs(init) && m.returned !in Rets(init))
  }

  lemma PairingSnoc(acc: seq<Event>, ret: seq<Event>, ms: seq<Match>, m: Match)
    ensures Accs(ms + [m]) == Accs(ms) + {m.accepted}
    ensures Rets(ms + [m]) == Rets(ms) + {m.returned}
    ensures IsPairing(acc, ret, ms + [m]) <==>
              && IsPairing(acc, ret, ms)
              && m.accepted < |acc| && m.returned < |ret| && acc[m.accepted] == ret[m.returned]
              && m.accepted !in Accs(ms) && m.returned !in Rets(ms)
  {
    assert (ms + [m])[..|ms|] == ms;
  }

  /** Read off position by position, a pairing is injective on both sides. */
  lemma {:induction false} PairingIsInjective(acc: seq<Event>, ret: seq<Event>, ms: seq<Match>)
    requires IsPairing(acc, ret, ms)
    ensures forall k :: 0 <= k < |ms| ==>
              && ms[k].accepted < |acc| && ms[k].returned < |ret| && acc[ms[k].accepted] == ret[ms[k].returned]
              && ms[k].accepted in Accs(ms) && ms[k].returned in Rets(ms)
    ensures forall k, l :: 0 <= k < l < |ms| ==> ms[k].accepted != ms[l].accepted && ms[k].returned != ms[l].returned
  {
    if ms != [] {
      var init := ms[..|ms| - 1];
      PairingIsInjective(acc, ret, init);
      assert forall k :: 0 <= k < |init| ==> init[k] == ms[k];
    }
  }

  ghost function SamePositions(acc: seq<Event>, ret: seq<Event>, n: nat): set<nat> {
    set i: nat | i < n && SameAt(acc, ret, i)
  }

  lemma InPlaceNext(acc: seq<Event>, ret: seq<Event>, n: nat)
    requires SameAt(acc, ret, n) && IsPairing(acc, ret, InPlace(acc, ret, n))
    requires Accs(InPlace(acc, ret, n)) == Rets(InPlace(acc, ret, n)) == SamePositions(acc, ret, n)
    ensures var ms := InPlace(acc, ret, n + 1);
            Accs(ms) == Rets(ms) == SamePositions(acc, ret, n + 1) && IsPairing(acc, ret, ms)
  {
    hide Accs, Rets, IsPairing;
    PairingSnoc(acc, ret, InPlace(acc, ret, n), Match(n, n));
    assert SamePositions(acc, ret, n + 1) == SamePositions(acc, ret, n) + {n};
  }

  lemma {:induction false} InPlaceMeans(acc: seq<Event>, ret: seq<Event>, n: nat)
    ensures var ms := InPlace(acc, ret, n);
            Accs(ms) == Rets(ms) == SamePositions(acc, ret, n) && IsPairing(acc, ret, ms)
    decreases n
  {
    if n == 0 {
      assert SamePositions(acc, ret, 0) == {};
    } else {
      hide Accs, Rets, IsPairing, SameAt;
      InPlaceMeans(acc, ret, n - 1);
      if SameAt(acc, ret, n - 1) {
        InPlaceNext(acc, ret, n - 1);
      } else {
        assert SamePositions(acc, ret, n) == SamePositions(acc, ret, n - 1);
      }
    }
  }

  /** The accepted events below `n` are settled: unless reserved, every event equal to them is. */
  ghost predicate Settled(acc: seq<Event>, ret: seq<Event>, a: set<nat>, r: set<nat>, n: nat) {
    && (forall i: nat :: i < |acc| && SameAt(acc, ret, i) ==> i in a && i in r)
    && (forall i: nat :: i in a ==> i < n || SameAt(acc, ret, i))
    && (forall i: nat, j: nat :: i < n && i < |acc| && j < |ret| && acc[i] == ret[j] ==> i in a || j in r)
  }

  lemma SettleNext(acc: seq<Event>, ret: seq<Event>, a: set<nat>, r: set<nat>, n: nat)
    requires n < |acc| && Settled(acc, ret, a, r, n)
    ensures var f := FirstFree(ret, r, acc[n], 0);
            if SameAt(acc, ret, n) || f == |ret| then Settled(acc, ret, a, r, n + 1)
            else n !in a && f !in r && Settled(acc, ret, a + {n}, r + {f}, n + 1)
  {
  }

  lemma MatchedStart(acc: seq<Event>, ret: seq<Event>)
    ensures var ms := Matched(acc, ret, 0);
            IsPairing(acc, ret, ms) && Settled(acc, ret, Accs(ms), Rets(ms), 0)
  {
    hide Accs, Rets, IsPairing, InPlace;
    InPlaceMeans(acc, ret, |acc|);
  }

  /** What the pairing is after `n` accepted events of the second phase. */
  lemma {:induction false} MatchedMeans(acc: seq<Event>, ret: seq<Event>, n: nat)
    requires n <= |acc|
    ensures IsPairing(acc, ret, Matched(acc, ret, n))
    ensures Settled(acc, ret, Accs(Matched(acc, ret, n)), Rets(Matched(acc, ret, n)), n)
    decreases n
  {
    hide Accs, Rets, IsPairing, Settled, SameAt, FirstFree;
    if n == 0 {
      MatchedStart(acc, ret);
    } else {
      MatchedMeans(acc, ret, n - 1);
      var before := Matched(acc, ret, n - 1);
      SettleNext(acc, ret, Accs(before), Rets(before), n - 1);
      PairingSnoc(acc, ret, before, Match(n - 1, FirstFree(ret, Rets(before), acc[n - 1], 0)));
    }
  }

  // ----- multiplicities -----

  /** The events below `n` at the positions in `used`. */
  function Pick(es: seq<Event>, used: set<nat>, n: nat): seq<Event>
    requires n <= |es|
  {
    if n == 0 then []
    else if n - 1 in used then Pick(es, used, n - 1) + [es[n - 1]]
    else Pick(es, used, n - 1)
  }

  /** The events below `n` at the other positions. */
  function Others(es: seq<Event>, used: set<nat>, n: nat): seq<Event>
    requires n <= |es|
  {
    if n == 0 then []
    else if n - 1 in used then Others(es, used, n - 1)
    else Others(es, used, n - 1) + [es[n - 1]]
  }

  lemma PrefixSnoc(es: seq<Event>, n: nat)
    requires n < |es|
    ensures multiset(es[..n + 1]) == multiset(es[..n]) + multiset{es[n]}
  {
    assert es[..n + 1] == es[..n] + [es[n]];
  }

  lemma Regroup(all: multiset<Event>, p: multiset<Event>, o: multiset<Event>, e: multiset<Event>)
    requires all == p + o
    ensures all + e == (p + e) + o && all + e == p + (o + e)
  {
  }

  /** One more position goes to the picked events or to the others. */
  lemma PickOrOther(es: seq<Event>, used: set<nat>, n: nat)
    requires n < |es|
    ensures var picked, others := Pick(es, used, n), Others(es, used, n);
            if n in used
            then multiset(Pick(es, used, n + 1)) == multiset(picked) + multiset{es[n]} && Others(es, used, n + 1) == others
            else Pick(es, used, n + 1) == picked && multiset(Others(es, used, n + 1)) == multiset(others) + multiset{es[n]}
  {
  }

  ghost predicate Parted(es: seq<Event>, used: set<nat>, n: nat)
    requires n <= |es|
  {
    multiset(es[..n]) == multiset(Pick(es, used, n)) + multiset(Others(es, used, n))
  }

  lemma PartedNext(es: seq<Event>, used: set<nat>, n: nat)
    requires n < |es| && Parted(es, used, n)
    ensures Parted(es, used, n + 1)
  {
    hide Pick, Others;
    PickOrOther(es, used, n);
    PrefixSnoc(es, n);
    Regroup(multiset(es[..n]), multiset(Pick(es, used, n)), multiset(Others(es, used, n)), multiset{es[n]});
  }

  lemma {:induction false} PickAndOthers(es: seq<Event>, used: set<nat>, n: nat)
    requires n <= |es|
    ensures Parted(es, used, n)
    decreases n
  {
    if n > 0 {
      hide Parted;
      PickAndOthers(es, used, n - 1);
      PartedNext(es, used, n - 1);
    }
  }

  lemma {:induction false} OthersAreUnused(es: seq<Event>, used: set<nat>, n: nat, e: Event)
    requires n <= |es| && e in Others(es, used, n)
    ensures exists i: nat :: i < n && i !in used && es[i] == e
  {
    if n - 1 in used || e in Others(es, used, n - 1) {
      OthersAreUnused(es, used, n - 1, e);
    } else {
      assert es[n - 1] == e;
    }
  }

  lemma {:induction false} PickMore(es: seq<Event>, used: set<nat>, i: nat, n: nat)
    requires n <= |es| && i !in used
    ensures i < n ==> multiset(Pick(es, used + {i}, n)) == multiset(Pick(es, used, n)) + multiset{es[i]}
    ensures i >= n ==> Pick(es, used + {i}, n) == Pick(es, used, n)
  {
    if n > 0 { PickMore(es, used, i, n - 1); }
  }

  lemma {:induction false} PickNone(es: seq<Event>, n: nat)
    requires n <= |es|
    ensures Pick(es, {}, n) == []
  {
    if n > 0 { PickNone(es, n - 1); }
  }

  /** The events a pairing reserves are the same on both sides. */
  lemma {:induction false} PairedAlike(acc: seq<Event>, ret: seq<Event>, ms: seq<Match>)
    requires IsPairing(acc, ret, ms)
    ensures multiset(Pick(acc, Accs(ms), |acc|)) == multiset(Pick(ret, Rets(ms), |ret|))
  {
    if ms == [] {
      PickNone(acc, |acc|);
      PickNone(ret, |ret|);
    } else {
      var init, m := ms[..|ms| - 1], ms[|ms| - 1];
      PairedAlike(acc, ret, init);
      PickMore(acc, Accs(init), m.accepted, |acc|);
      PickMore(ret, Rets(init), m.returned, |ret|);
    }
  }

  /** The pairing of a whole transaction. */
  function Pairing(acc: seq<Event>, ret: seq<Event>): seq<Match> {
    Matched(acc, ret, |acc|)
  }

  /** The accepted events left to be compared. */
  function LeftOver(acc: seq<Event>, ret: seq<Event>): seq<Event> {
    Others(acc, Accs(Pairing(acc, ret)), |acc|)
  }

  /** The returned events left to be compared. */
  function Surplus(acc: seq<Event>, ret: seq<Event>): seq<Event> {
    Others(ret, Rets(Pairing(acc, ret)), |ret|)
  }

  /** The events the pairing reserves. */
  function Kept(acc: seq<Event>, ret: seq<Event>): seq<Event> {
    Pick(acc, Accs(Pairing(acc, ret)), |acc|)
  }

  lemma NothingLeftAlike(acc: seq<Event>, ret: seq<Event>, e: Event)
    ensures e !in LeftOver(acc, ret) || e !in Surplus(acc, ret)
  {
    var ms := Pairing(acc, ret);
    MatchedMeans(acc, ret, |acc|);
    if e in LeftOver(acc, ret) {
      OthersAreUnused(acc, Accs(ms), |acc|, e);
      var i: nat :| i < |acc| && i !in Accs(ms) && acc[i] == e;
      forall j: nat | j < |ret| && ret[j] == e ensures j in Rets(ms) {
        assert acc[i] == ret[j];
      }
      NotInOthers(ret, Rets(ms), |ret|, e);
    }
  }

  lemma {:induction false} NotInOthers(es: seq<Event>, used: set<nat>, n: nat, e: Event)
    requires n <= |es|
    requires forall j: nat :: j < n && es[j] == e ==> j in used
    ensures e !in Others(es, used, n)
  {
    if n > 0 { NotInOthers(es, used, n - 1, e); }
  }

  /**
   In every equality class the pairing matches the minimum of the two multiplicities: what is
   reserved is exactly the intersection of the two multisets of events.
   */
  lemma PairingIsIntersection(acc: seq<Event>, ret: seq<Event>)
    ensures IsPairing(acc, ret, Pairing(acc, ret))
    ensures multiset(acc) == multiset(Kept(acc, ret)) + multiset(LeftOver(acc, ret))
    ensures multiset(ret) == multiset(Kept(acc, ret)) + multiset(Surplus(acc, ret))
    ensures multiset(Kept(acc, ret)) == multiset(acc) * multiset(ret)
  {
    hide Matched, Pick, Others;
    var ms := Pairing(acc, ret);
    MatchedMeans(acc, ret, |acc|);
    PairedAlike(acc, ret, ms);
    PickAndOthers(acc, Accs(ms), |acc|);
    PickAndOthers(ret, Rets(ms), |ret|);
    assert acc[..|acc|] == acc && ret[..|ret|] == ret;
    var left, surplus := multiset(LeftOver(acc, ret)), multiset(Surplus(acc, ret));
    forall e ensures left[e] == 0 || surplus[e] == 0 {
      NothingLeftAlike(acc, ret, e);
    }
  }

  // ----- the verdict on a transaction -----

  function ArmOf(r: Rules, e: Event): string {
    if e.Nil? then "<nil>" else r.arm(e.message)
  }

  /** An added or removed event: the action is charged by the caller, its content here. */
  predicate EventMissing(r: Rules, g: Grants, e: Event) {
    e.Event? ==> MessagePresent(r.schema, g, r.root, e.message)
  }

  predicate EventOk(r: Rules, g: Grants, a: Event, b: Event) {
    if a.Nil? || b.Nil? || ArmOf(r, a) != ArmOf(r, b) then
      (a.Nil? && b.Nil?) || (g(r.topology) && EventMissing(r, g, a) && EventMissing(r, g, b))
    else MessageOk(r.schema, g, r.root, a.message, b.message)
  }

  predicate Moved(ms: seq<Match>) {
    exists k :: 0 <= k < |ms| && ms[k].accepted != ms[k].returned
  }

  /** Every event outside the same-position phase has a wire key. */
  predicate Keyed(r: Rules, acc: seq<Event>, ret: seq<Event>) {
    && (forall i: nat :: i < |acc| && !SameAt(acc, ret, i) ==> WireKey(r, acc[i]).Some?)
    && (forall i: nat :: i < |ret| && !SameAt(acc, ret, i) ==> WireKey(r, ret[i]).Some?)
  }

  /** The residual events, compared pair by pair; the longer side's tail must carry nothing protected. */
  predicate ResidueOk(r: Rules, g: Grants, left: seq<Event>, surplus: seq<Event>) {
    && (forall k :: 0 <= k < |left| ==>
          if k < |surplus| then EventOk(r, g, left[k], surplus[k]) else EventMissing(r, g, left[k]))
    && (forall k :: |left| <= k < |surplus| ==> EventMissing(r, g, surplus[k]))
  }

  /** verifyStreamPolicy. */
  predicate TransactionOk(r: Rules, g: Grants, acc: seq<Event>, ret: seq<Event>) {
    && (|acc| != |ret| ==> g(r.topology))
    && Keyed(r, acc, ret)
    && (Moved(Pairing(acc, ret)) ==> g(r.topology))
    && ResidueOk(r, g, LeftOver(acc, ret), Surplus(acc, ret))
  }

  // ----- nothing ungranted is added, removed or altered -----

  ghost function EventFacts(r: Rules, g: Grants, e: Event): multiset<Fact> {
    if e.Nil? then multiset{} else Facts(r.schema, g, r.root, e.message)
  }

  /** The protected facts carried by a whole event sequence. */
  ghost function AllFacts(r: Rules, g: Grants, es: seq<Event>): multiset<Fact> {
    if es == [] then multiset{} else AllFacts(r, g, es[..|es| - 1]) + EventFacts(r, g, es[|es| - 1])
  }

  lemma {:induction false} AllFactsAppend(r: Rules, g: Grants, a: seq<Event>, b: seq<Event>)
    ensures AllFacts(r, g, a + b) == AllFacts(r, g, a) + AllFacts(r, g, b)
    decreases |b|
  {
    hide EventFacts;
    if b == [] {
      assert a + b == a;
    } else {
      assert (a + b)[..|a + b| - 1] == a + b[..|b| - 1];
      AllFactsAppend(r, g, a, b[..|b| - 1]);
    }
  }

  lemma AllFactsOne(r: Rules, g: Grants, e: Event)
    ensures AllFacts(r, g, [e]) == EventFacts(r, g, e)
  {
    assert [e][..0] == [];
  }

  lemma MultisetWithout(es: seq<Event>, k: nat)
    requires k < |es|
    ensures multiset(es) == multiset(es[..k] + es[k + 1..]) + multiset{es[k]}
  {
    assert es == es[..k] + [es[k]] + es[k + 1..];
  }

  lemma Cancel(x: multiset<Event>, y: multiset<Event>, e: Event)
    requires x + multiset{e} == y + multiset{e}
    ensures x == y
  {
    forall v ensures x[v] == y[v] {
      assert (x + multiset{e})[v] == (y + multiset{e})[v];
    }
  }

  lemma AllFactsWithout(r: Rules, g: Grants, es: seq<Event>, k: nat)
    requires k < |es|
    ensures AllFacts(r, g, es) == AllFacts(r, g, es[..k] + es[k + 1..]) + EventFacts(r, g, es[k])
  {
    hide EventFacts, AllFacts;
    var front, back := es[..k], es[k + 1..];
    assert es == (front + [es[k]]) + back;
    AllFactsAppend(r, g, front + [es[k]], back);
    AllFactsAppend(r, g, front, [es[k]]);
    AllFactsAppend(r, g, front, back);
    AllFactsOne(r, g, es[k]);
  }

  /** Reordering events does not change what they carry. */
  lemma {:induction false} AllFactsPermute(r: Rules, g: Grants, a: seq<Event>, b: seq<Event>)
    requires multiset(a) == multiset(b)
    ensures AllFacts(r, g, a) == AllFacts(r, g, b)
    decreases |a|
  {
    hide EventFacts;
    if a == [] {
      assert |multiset(b)| == 0;
    } else {
      var n := |a| - 1;
      MultisetWithout(a, n);
      assert a[..n] + a[n + 1..] == a[..n];
      assert a[n] in multiset(b);
      var k :| 0 <= k < |b| && b[k] == a[n];
      MultisetWithout(b, k);
      Cancel(multiset(a[..n]), multiset(b[..k] + b[k + 1..]), a[n]);
      AllFactsPermute(r, g, a[..n], b[..k] + b[k + 1..]);
      AllFactsWithout(r, g, b, k);
    }
  }

  lemma EventKeepsFacts(r: Rules, g: Grants, a: Event, b: Event)
    requires EventOk(r, g, a, b)
    ensures EventFacts(r, g, a) == EventFacts(r, g, b)
  {
    if a.Nil? || b.Nil? || ArmOf(r, a) != ArmOf(r, b) {
      if !(a.Nil? && b.Nil?) {
        MissingCarriesNothing(r, g, a);
        MissingCarriesNothing(r, g, b);
      }
    } else {
      MessageKeepsFacts(r.schema, g, r.root, a.message, b.message);
    }
  }

  lemma MissingCarriesNothing(r: Rules, g: Grants, e: Event)
    requires EventMissing(r, g, e)
    ensures EventFacts(r, g, e) == multiset{}
  {
    if e.Event? { PresentCarriesNothing(r.schema, g, r.root, e.message); }
  }

  lemma {:induction false} ResidueKeepsFacts(r: Rules, g: Grants, left: seq<Event>, surplus: seq<Event>)
    requires ResidueOk(r, g, left, surplus)
    ensures AllFacts(r, g, left) == AllFacts(r, g, surplus)
    decreases |left| + |surplus|
  {
    hide EventFacts, EventOk, EventMissing;
    if |left| > |surplus| {
      ResidueKeepsFacts(r, g, left[..|left| - 1], surplus);
      MissingCarriesNothing(r, g, left[|left| - 1]);
    } else if |surplus| > |left| {
      ResidueKeepsFacts(r, g, left, surplus[..|surplus| - 1]);
      MissingCarriesNothing(r, g, surplus[|surplus| - 1]);
    } else if left != [] {
      ResidueKeepsFacts(r, g, left[..|left| - 1], surplus[..|surplus| - 1]);
      EventKeepsFacts(r, g, left[|left| - 1], surplus[|surplus| - 1]);
    }
  }

  /**
   For any inventory and any grants, an accepted transaction carries the same protected facts
   as the events it replaces: no host-owned field, no unknown bytes and no section the plugin
   was not granted is added, removed or altered, at any nesting depth.
   */
  lemma TransactionKeepsFacts(r: Rules, g: Grants, acc: seq<Event>, ret: seq<Event>)
    requires TransactionOk(r, g, acc, ret)
    ensures AllFacts(r, g, acc) == AllFacts(r, g, ret)
  {
    hide Pairing, Kept, LeftOver, Surplus, AllFacts;
    var kept, left, surplus := Kept(acc, ret), LeftOver(acc, ret), Surplus(acc, ret);
    PairingIsIntersection(acc, ret);
    ResidueKeepsFacts(r, g, left, surplus);
    AllFactsPermute(r, g, acc, kept + left);
    AllFactsPermute(r, g, ret, kept + surplus);
    AllFactsAppend(r, g, kept, left);
    AllFactsAppend(r, g, kept, surplus);
  }

  // ----- what topology alone decides -----

  lemma EventMonotone(r: Rules, g: Grants, h: Grants, a: Event, b: Event)
    requires AtLeast(h, g)
    ensures EventMissing(r, g, a) ==> EventMissing(r, h, a)
    ensures EventOk(r, g, a, b) ==> EventOk(r, h, a, b)
  {
    if EventMissing(r, g, a) && a.Event? { PresentMonotone(r.schema, g, h, r.root, a.message); }
    if EventMissing(r, g, b) && b.Event? { PresentMonotone(r.schema, g, h, r.root, b.message); }
    if a.Event? && b.Event? && ArmOf(r, a) == ArmOf(r, b) && EventOk(r, g, a, b) {
      MessageMonotone(r.schema, g, h, r.root, a.message, b.message);
    }
  }

  lemma ResidueMonotone(r: Rules, g: Grants, h: Grants, left: seq<Event>, surplus: seq<Event>)
    requires AtLeast(h, g) && ResidueOk(r, g, left, surplus)
    ensures ResidueOk(r, h, left, surplus)
  {
    hide EventOk, EventMissing;
    forall k | 0 <= k < |left|
      ensures if k < |surplus| then EventOk(r, h, left[k], surplus[k]) else EventMissing(r, h, left[k])
    {
      EventMonotone(r, g, h, left[k], if k < |surplus| then surplus[k] else Nil);
    }
    forall k | |left| <= k < |surplus| ensures EventMissing(r, h, surplus[k]) {
      EventMonotone(r, g, h, surplus[k], Nil);
    }
  }

  /** A plugin with more grants is refused nothing it was allowed before. */
  lemma TransactionMonotone(r: Rules, g: Grants, h: Grants, acc: seq<Event>, ret: seq<Event>)
    requires AtLeast(h, g) && TransactionOk(r, g, acc, ret)
    ensures TransactionOk(r, h, acc, ret)
  {
    ResidueMonotone(r, g, h, LeftOver(acc, ret), Surplus(acc, ret));
  }

  lemma {:induction false} MovedUnlessInPlace(acc: seq<Event>, ret: seq<Event>, ms: seq<Match>)
    requires IsPairing(acc, ret, ms)
    ensures !Moved(ms) ==> Accs(ms) == Rets(ms) && forall i :: i in Accs(ms) ==> SameAt(acc, ret, i)
  {
    if ms != [] && !Moved(ms) {
      var init := ms[..|ms| - 1];
      assert !Moved(init) by {
        assert forall k :: 0 <= k < |init| ==> init[k] == ms[k];
      }
      MovedUnlessInPlace(acc, ret, init);
    }
  }

  lemma {:induction false} OthersEmpty(es: seq<Event>, used: set<nat>, n: nat)
    requires n <= |es|
    ensures Others(es, used, n) == [] <==> forall i :: 0 <= i < n ==> i in used
  {
    if n > 0 { OthersEmpty(es, used, n - 1); }
  }

  /** A pure reordering is accepted exactly when nothing moved or the plugin holds the topology grant. */
  lemma ReorderingNeedsTopologyAlone(r: Rules, g: Grants, acc: seq<Event>, ret: seq<Event>)
    requires multiset(acc) == multiset(ret) && Keyed(r, acc, ret)
    ensures TransactionOk(r, g, acc, ret) <==> acc == ret || g(r.topology)
  {
    hide Matched, Pick, Others, Accs, Rets;
    var ms := Pairing(acc, ret);
    PairingIsIntersection(acc, ret);
    assert |acc| == |multiset(acc)| == |multiset(ret)| == |ret|;
    assert multiset(acc) * multiset(ret) == multiset(acc) == multiset(ret);
    assert |multiset(LeftOver(acc, ret))| == 0 && |multiset(Surplus(acc, ret))| == 0;
    OthersEmpty(acc, Accs(ms), |acc|);
    MovedUnlessInPlace(acc, ret, ms);
    if !Moved(ms) {
      forall i: nat | i < |acc| ensures acc[i] == ret[i] {
        assert i in Accs(ms);
        assert SameAt(acc, ret, i);
      }
    }
    if acc == ret {
      MatchedMeans(acc, ret, |acc|);
      NothingMovesInPlace(acc, |acc|);
    }
  }

  lemma {:induction false} NothingMovesInPlace(es: seq<Event>, n: nat)
    requires n <= |es|
    ensures Matched(es, es, n) == InPlace(es, es, |es|) && !Moved(Matched(es, es, n))
  {
    if n == 0 {
      InPlaceNeverMoves(es, |es|);
    } else {
      NothingMovesInPlace(es, n - 1);
    }
  }

  lemma {:induction false} InPlaceNeverMoves(es: seq<Event>, n: nat)
    ensures !Moved(InPlace(es, es, n))
  {
    if n > 0 {
      InPlaceNeverMoves(es, n - 1);
      assert forall k :: 0 <= k < |InPlace(es, es, n - 1)| ==> InPlace(es, es, n - 1)[k] == InPlace(es, es, n)[k];
    }
  }

  /** Passing every event through unchanged needs no grant at all. */
  lemma IdentityNeedsNoGrant(r: Rules, g: Grants, es: seq<Event>)
    ensures TransactionOk(r, g, es, es)
  {
    ReorderingNeedsTopologyAlone(r, g, es, es);
  }

  /** An unreserved event stands among the others after those below it. */
  lemma {:induction false} OthersAt(es: seq<Event>, used: set<nat>, n: nat, i: nat)
    requires i < n <= |es| && i !in used
    ensures |Others(es, used, i)| < |Others(es, used, n)| && Others(es, used, n)[|Others(es, used, i)|] == es[i]
    decreases n
  {
    if i < n - 1 { OthersAt(es, used, n - 1, i); }
  }

  lemma OthersAligned(acc: seq<Event>, ret: seq<Event>, used: set<nat>, n: nat, i: nat)
    requires i < n <= |acc| && n <= |ret| && i !in used
    ensures |Others(acc, used, n)| == |Others(ret, used, n)|
    ensures exists k :: 0 <= k < |Others(acc, used, n)| && Others(acc, used, n)[k] == acc[i] && Others(ret, used, n)[k] == ret[i]
  {
    hide Others;
    OthersSameLength(acc, ret, used, n);
    OthersSameLength(acc, ret, used, i);
    OthersAt(acc, used, n, i);
    OthersAt(ret, used, n, i);
  }

  lemma {:induction false} OthersSameLength(acc: seq<Event>, ret: seq<Event>, used: set<nat>, n: nat)
    requires n <= |acc| && n <= |ret|
    ensures |Others(acc, used, n)| == |Others(ret, used, n)|
  {
    if n > 0 { OthersSameLength(acc, ret, used, n - 1); }
  }

  /** Without the topology grant an accepted transaction keeps the length and the arm at every position. */
  lemma WithoutTopologyShapeIsFixed(r: Rules, g: Grants, acc: seq<Event>, ret: seq<Event>, i: nat)
    requires TransactionOk(r, g, acc, ret) && !g(r.topology)
    ensures |acc| == |ret|
    ensures i < |acc| ==> ArmOf(r, acc[i]) == ArmOf(r, ret[i])
  {
    hide Matched, Others, Accs, Rets;
    var ms := Pairing(acc, ret);
    PairingIsIntersection(acc, ret);
    MovedUnlessInPlace(acc, ret, ms);
    if i < |acc| && i !in Accs(ms) {
      OthersAligned(acc, ret, Accs(ms), |acc|, i);
      var k :| 0 <= k < |LeftOver(acc, ret)| && LeftOver(acc, ret)[k] == acc[i] && Surplus(acc, ret)[k] == ret[i];
      assert EventOk(r, g, LeftOver(acc, ret)[k], Surplus(acc, ret)[k]);
    }
  }

  // ----- computing the pairing -----

  /** The returned positions below `n`, outside the same-position phase, whose wire key is `key`. */
  function Bucket(r: Rules, acc: seq<Event>, ret: seq<Event>, key: string, n: nat): (b: seq<nat>)
    requires n <= |ret|
    ensures forall k :: 0 <= k < |b| ==> b[k] < n
  {
    if n == 0 then []
    else if !SameAt(acc, ret, n - 1) && WireKey(r, ret[n - 1]) == Some(key)
    then Bucket(r, acc, ret, key, n - 1) + [n - 1]
    else Bucket(r, acc, ret, key, n - 1)
  }

  function Listed(byWire: map<string, seq<nat>>, key: string): seq<nat> {
    if key in byWire then byWire[key] else []
  }

  /** A bucket is ascending and misses no position with its key. */
  lemma {:induction false} BucketMeans(r: Rules, acc: seq<Event>, ret: seq<Event>, key: string, n: nat)
    requires n <= |ret|
    ensures forall k, l :: 0 <= k < l < |Bucket(r, acc, ret, key, n)| ==>
              Bucket(r, acc, ret, key, n)[k] < Bucket(r, acc, ret, key, n)[l]
    ensures forall j: nat :: j < n && !SameAt(acc, ret, j) && WireKey(r, ret[j]) == Some(key) ==> j in Bucket(r, acc, ret, key, n)
  {
    if n > 0 {
      BucketMeans(r, acc, ret, key, n - 1);
      var before, after := Bucket(r, acc, ret, key, n - 1), Bucket(r, acc, ret, key, n);
      forall j: nat | j < n && !SameAt(acc, ret, j) && WireKey(r, ret[j]) == Some(key) ensures j in after {
        if j == n - 1 { assert after[|before|] == j; }
      }
    }
  }

  lemma {:induction false} FirstFreeIs(ret: seq<Event>, used: set<nat>, e: Event, j: nat, f: nat)
    requires j <= f <= |ret|
    requires f < |ret| ==> ret[f] == e && f !in used
    requires forall k :: j <= k < f ==> ret[k] != e || k in used
    ensures FirstFree(ret, used, e, j) == f
    decreases |ret| - j
  {
    if j < f { FirstFreeIs(ret, used, e, j + 1, f); }
  }

  lemma BucketRange(r: Rules, acc: seq<Event>, ret: seq<Event>, key: string)
    ensures forall l :: 0 <= l < |Bucket(r, acc, ret, key, |ret|)| ==> Bucket(r, acc, ret, key, |ret|)[l] < |ret|
  {
  }

  /** Once the bucket's first `k` entries are of no use, no event below the next entry is. */
  lemma NothingFree(r: Rules, acc: seq<Event>, ret: seq<Event>, e: Event, key: string, used: set<nat>, k: nat, j: nat)
    requires forall i: nat :: i < |ret| && SameAt(acc, ret, i) ==> i in used
    requires WireKey(r, e) == Some(key) && k <= |Bucket(r, acc, ret, key, |ret|)|
    requires forall l :: 0 <= l < k ==> var i := Bucket(r, acc, ret, key, |ret|)[l]; ret[i] != e || i in used
    requires j == if k < |Bucket(r, acc, ret, key, |ret|)| then Bucket(r, acc, ret, key, |ret|)[k] else |ret|
    ensures forall i: nat :: i < j && i < |ret| && ret[i] == e ==> i in used
  {
    hide Bucket, WireKey, SameAt;
    var bucket := Bucket(r, acc, ret, key, |ret|);
    BucketMeans(r, acc, ret, key, |ret|);
    forall i: nat | i < j && i < |ret| && ret[i] == e ensures i in used {
      if !SameAt(acc, ret, i) {
        assert i in bucket;
        var l :| 0 <= l < |bucket| && bucket[l] == i;
        assert l < k;
      }
    }
  }

  /** The first unreserved equal event in a bucket is the first free one in the whole sequence. */
  method FindInBucket(r: Rules, acc: seq<Event>, ret: seq<Event>, e: Event, key: string, bucket: seq<nat>,
                      reserved: array<bool>, ghost used: set<nat>)
    returns (f: nat)
    requires reserved.Length == |ret| && forall j: nat :: j < |ret| ==> (reserved[j] <==> j in used)
    requires forall j: nat :: j < |ret| && SameAt(acc, ret, j) ==> j in used
    requires WireKey(r, e) == Some(key) && bucket == Bucket(r, acc, ret, key, |ret|)
    ensures f == FirstFree(ret, used, e, 0)
  {
    hide Bucket, WireKey, SameAt;
    BucketRange(r, acc, ret, key);
    var k := 0;
    while k < |bucket|
      invariant 0 <= k <= |bucket|
      invariant forall l :: 0 <= l < k ==> ret[bucket[l]] != e || bucket[l] in used
    {
      var j := bucket[k];
      if !reserved[j] && ret[j] == e {
        NothingFree(r, acc, ret, e, key, used, k, j);
        FirstFreeIs(ret, used, e, 0, j);
        return j;
      }
      k := k + 1;
    }
    NothingFree(r, acc, ret, e, key, used, k, |ret|);
    FirstFreeIs(ret, used, e, 0, |ret|);
    return |ret|;
  }

  /** The same-position phase. */
  method ReserveInPlace(acc: seq<Event>, ret: seq<Event>)
    returns (acceptedReserved: array<bool>, returnedReserved: array<bool>, ms: seq<Match>)
    ensures fresh(acceptedReserved) && fresh(returnedReserved) && acceptedReserved != returnedReserved
    ensures acceptedReserved.Length == |acc| && returnedReserved.Length == |ret|
    ensures ms == InPlace(acc, ret, |acc|)
    ensures forall j: nat :: j < |acc| ==> (acceptedReserved[j] <==> SameAt(acc, ret, j))
    ensures forall j: nat :: j < |ret| ==> (returnedReserved[j] <==> SameAt(acc, ret, j))
    ensures Marks(acceptedReserved, Accs(ms)) && Marks(returnedReserved, Rets(ms))
  {
    hide Accs, Rets, IsPairing;
    InPlaceMeans(acc, ret, |acc|);
    acceptedReserved := new bool[|acc|](_ => false);
    returnedReserved := new bool[|ret|](_ => false);
    ms := [];
    var i := 0;
    while i < |acc|
      invariant 0 <= i <= |acc|
      invariant ms == InPlace(acc, ret, i)
      invariant forall j: nat :: j < |acc| ==> (acceptedReserved[j] <==> j < i && SameAt(acc, ret, j))
      invariant forall j: nat :: j < |ret| ==> (returnedReserved[j] <==> j < i && SameAt(acc, ret, j))
    {
      if i < |ret| && acc[i] == ret[i] {
        acceptedReserved[i], returnedReserved[i] := true, true;
        ms := ms + [Match(i, i)];
      }
      i := i + 1;
    }
  }

  /** Groups the unreserved returned positions by wire key; None when an event cannot be marshalled. */
  method GroupByWire(r: Rules, acc: seq<Event>, ret: seq<Event>, reserved: array<bool>)
    returns (byWire: Option<map<string, seq<nat>>>)
    requires reserved.Length == |ret| && forall j: nat :: j < |ret| ==> (reserved[j] <==> SameAt(acc, ret, j))
    ensures byWire.Some? <==> forall j: nat :: j < |ret| && !SameAt(acc, ret, j) ==> WireKey(r, ret[j]).Some?
    ensures byWire.Some? ==> forall key :: Listed(byWire.value, key) == Bucket(r, acc, ret, key, |ret|)
  {
    hide SameAt;
    var buckets: map<string, seq<nat>> := map[];
    var i := 0;
    while i < |ret|
      invariant 0 <= i <= |ret|
      invariant forall j: nat :: j < i && !SameAt(acc, ret, j) ==> WireKey(r, ret[j]).Some?
      invariant forall key :: Listed(buckets, key) == Bucket(r, acc, ret, key, i)
    {
      if !reserved[i] {
        var wire := WireKey(r, ret[i]);
        if wire.None? {
          return None;
        }
        buckets := buckets[wire.value := Listed(buckets, wire.value) + [i]];
      }
      i := i + 1;
    }
    return Some(buckets);
  }

  /** The array marks exactly the positions in `s`. */
  ghost predicate Marks(a: array<bool>, s: set<nat>)
    reads a
  {
    forall j: nat :: j < a.Length ==> (a[j] <==> j in s)
  }

  lemma MarkSays(a: array<bool>, s: set<nat>, i: nat)
    requires Marks(a, s) && i < a.Length
    ensures a[i] <==> i in s
  {
  }

  /** Pairs the i-th accepted event, unless it is reserved or has no free equal. */
  method PairNext(r: Rules, acc: seq<Event>, ret: seq<Event>, i: nat, bucket: seq<nat>, key: string,
                  acceptedReserved: array<bool>, returnedReserved: array<bool>, ms: seq<Match>)
    returns (next: seq<Match>)
    requires i < |acc| && ms == Matched(acc, ret, i) && !SameAt(acc, ret, i)
    requires acceptedReserved != returnedReserved
    requires acceptedReserved.Length == |acc| && returnedReserved.Length == |ret|
    requires Marks(acceptedReserved, Accs(ms)) && Marks(returnedReserved, Rets(ms))
    requires WireKey(r, acc[i]) == Some(key) && bucket == Bucket(r, acc, ret, key, |ret|)
    modifies acceptedReserved, returnedReserved
    ensures next == Matched(acc, ret, i + 1)
    ensures Marks(acceptedReserved, Accs(next)) && Marks(returnedReserved, Rets(next))
  {
    hide SameAt, Bucket, Accs, Rets, Settled, IsPairing;
    MatchedMeans(acc, ret, i);
    SettledSame(acc, ret, Accs(ms), Rets(ms), i);
    var j := FindInBucket(r, acc, ret, acc[i], key, bucket, returnedReserved, Rets(ms));
    PairingSnoc(acc, ret, ms, Match(i, j));
    if j == |ret| {
      return ms;
    }
    acceptedReserved[i], returnedReserved[j] := true, true;
    return ms + [Match(i, j)];
  }

  /** exactEventMatches: same-position reservations, then first free occurrence by wire key. */
  method ExactEventMatches(r: Rules, acc: seq<Event>, ret: seq<Event>) returns (matches: Option<seq<Match>>)
    ensures matches.Some? <==> Keyed(r, acc, ret)
    ensures matches.Some? ==> matches.value == Pairing(acc, ret)
  {
    hide SameAt, Bucket, Accs, Rets, Settled, IsPairing, Listed, FirstFree, WireKey, Marks;
    var acceptedReserved, returnedReserved, ms := ReserveInPlace(acc, ret);
    var byWire := GroupByWire(r, acc, ret, returnedReserved);
    if byWire.None? {
      return None;
    }
    var i := 0;
    while i < |acc|
      invariant 0 <= i <= |acc|
      invariant forall j: nat :: j < i && !SameAt(acc, ret, j) ==> WireKey(r, acc[j]).Some?
      invariant ms == Matched(acc, ret, i)
      invariant Marks(acceptedReserved, Accs(ms)) && Marks(returnedReserved, Rets(ms))
    {
      MatchedMeans(acc, ret, i);
      SettledSame(acc, ret, Accs(ms), Rets(ms), i);
      MarkSays(acceptedReserved, Accs(ms), i);
      if !acceptedReserved[i] {
        var wire := WireKey(r, acc[i]);
        if wire.None? {
          return None;
        }
        ms := PairNext(r, acc, ret, i, Listed(byWire.value, wire.value), wire.value, acceptedReserved, returnedReserved, ms);
      }
      i := i + 1;
    }
    return Some(ms);
  }

  lemma SettledSame(acc: seq<Event>, ret: seq<Event>, a: set<nat>, r: set<nat>, n: nat)
    requires n < |acc| && Settled(acc, ret, a, r, n)
    ensures n in a <==> SameAt(acc, ret, n)
    ensures forall j: nat :: j < |ret| && SameAt(acc, ret, j) ==> j in r
  {
  }

  method Unreserved(es: seq<Event>, used: set<nat>) returns (rest: seq<Event>)
    ensures rest == Others(es, used, |es|)
  {
    rest := [];
    var i := 0;
    while i < |es|
      invariant 0 <= i <= |es|
      invariant rest == Others(es, used, i)
    {
      if i !in used {
        rest := rest + [es[i]];
      }
      i := i + 1;
    }
  }

  method CompareResidue(r: Rules, g: Grants, left: seq<Event>, surplus: seq<Event>) returns (ok: bool)
    ensures ok <==> ResidueOk(r, g, left, surplus)
  {
    hide EventOk, EventMissing;
    var i := 0;
    while i < |left| && i < |surplus|
      invariant 0 <= i <= |left| && i <= |surplus|
      invariant forall k :: 0 <= k < i ==> EventOk(r, g, left[k], surplus[k])
    {
      if !EventOk(r, g, left[i], surplus[i]) {
        return false;
      }
      i := i + 1;
    }
    var j := i;
    while j < |left|
      invariant i <= j <= |left|
      invariant forall k :: i <= k < j ==> EventMissing(r, g, left[k])
    {
      if !EventMissing(r, g, left[j]) {
        return false;
      }
      j := j + 1;
    }
    j := i;
    while j < |surplus|
      invariant i <= j <= |surplus|
      invariant forall k :: i <= k < j ==> EventMissing(r, g, surplus[k])
    {
      if !EventMissing(r, g, surplus[j]) {
        return false;
      }
      j := j + 1;
    }
    return true;
  }

  /** verifyStreamPolicy: the transaction, in the order the host decides it. */
  method VerifyPolicy(r: Rules, g: Grants, acc: seq<Event>, ret: seq<Event>) returns (ok: bool)
    ensures ok <==> TransactionOk(r, g, acc, ret)
  {
    hide Keyed, ResidueOk, Pairing, Others;
    if |acc| != |ret| && !g(r.topology) {
      return false;
    }
    var matches := ExactEventMatches(r, acc, ret);
    if matches.None? {
      return false;
    }
    var ms := matches.value;
    var acceptedReserved: set<nat>, returnedReserved: set<nat>, moved := {}, {}, false;
    var i := 0;
    while i < |ms|
      invariant 0 <= i <= |ms|
      invariant acceptedReserved == Accs(ms[..i]) && returnedReserved == Rets(ms[..i])
      invariant moved <==> exists k :: 0 <= k < i && ms[k].accepted != ms[k].returned
    {
      assert ms[..i + 1][..i] == ms[..i];
      acceptedReserved := acceptedReserved + {ms[i].accepted};
      returnedReserved := returnedReserved + {ms[i].returned};
      moved := moved || ms[i].accepted != ms[i].returned;
      i := i + 1;
    }
    assert ms[..|ms|] == ms;
    if moved && !g(r.topology) {
      return false;
    }
    var left := Unreserved(acc, acceptedReserved);
    var surplus := Unreserved(ret, returnedReserved);
    ok := CompareResidue(r, g, left, surplus);
  }
}
