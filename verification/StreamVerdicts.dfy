/**
 Exactly when a plugin's transaction is accepted (internal/plugin/stream_policy.go:65-233): any
 number of events changed in place, one value changed in one event, events added at the end and
 events removed from it. Together with the differences between messages these say what the grants
 let a plugin do, not only what they keep it from.
 */
module StreamVerdicts {
  import opened StreamPolicy
  import opened StreamTransaction
  import opened StreamEdits

  // ----- events changed in place -----

  /** No changed event is one of the others that were there before: nothing can be taken for a move. */
  ghost predicate NoEcho(acc: seq<Event>, ret: seq<Event>) {
    && |acc| == |ret|
    && forall i: nat, j: nat :: i < |acc| && j < |acc| && acc[i] != ret[i] && acc[j] != ret[j] ==> acc[i] != ret[j]
  }

  lemma {:induction false} InPlaceStays(acc: seq<Event>, ret: seq<Event>, n: nat)
    ensures !Moved(InPlace(acc, ret, n))
    decreases n
  {
    if n > 0 {
      InPlaceStays(acc, ret, n - 1);
      var before, after := InPlace(acc, ret, n - 1), InPlace(acc, ret, n);
      assert forall k :: 0 <= k < |before| ==> after[k] == before[k];
    }
  }

  /** When no event outside the same-position phase has an equal to be paired with, that phase is the pairing. */
  lemma {:induction false} PairedInPlace(acc: seq<Event>, ret: seq<Event>, n: nat)
    requires n <= |acc|
    requires forall i: nat, j: nat :: i < |acc| && j < |ret| && !SameAt(acc, ret, i) && !SameAt(acc, ret, j) ==> acc[i] != ret[j]
    ensures Matched(acc, ret, n) == InPlace(acc, ret, |acc|)
    decreases n
  {
    hide InPlace, Accs, Rets, IsPairing;
    if n > 0 {
      PairedInPlace(acc, ret, n - 1);
      InPlaceMeans(acc, ret, |acc|);
      assert forall j: nat :: SameAt(acc, ret, j) <==> j in SamePositions(acc, ret, |acc|);
    }
  }

  /** Each leftover stands beside the event returned in its place. */
  lemma {:induction false} OthersFrom(acc: seq<Event>, ret: seq<Event>, used: set<nat>, n: nat, k: nat)
    requires n <= |acc| && n <= |ret| && k < |Others(acc, used, n)|
    ensures |Others(acc, used, n)| == |Others(ret, used, n)|
    ensures exists i: nat :: i < n && i !in used && Others(acc, used, n)[k] == acc[i] && Others(ret, used, n)[k] == ret[i]
    decreases n
  {
    OthersSameLength(acc, ret, used, n);
    if n > 0 {
      OthersSameLength(acc, ret, used, n - 1);
      if k < |Others(acc, used, n - 1)| {
        OthersFrom(acc, ret, used, n - 1, k);
      } else {
        assert n - 1 !in used;
      }
    }
  }

  /** The event can be marshalled; a missing one always can. */
  predicate Marshals(r: Rules, e: Event) {
    e.Event? ==> r.wire(e.message).Some?
  }

  ghost predicate ContentCanCome(r: Rules, g: Grants, e: Event) {
    e.Event? ==> CanCome(r.schema, g, r.root, e.message)
  }

  /** One event in place of another: with the same arm by their differences, otherwise by the topology grant and all that both carry. */
  ghost predicate EventAllowed(r: Rules, g: Grants, a: Event, b: Event) {
    if a.Event? && b.Event? && r.arm(a.message) == r.arm(b.message) then AllAllowed(r.schema, g, r.root, a.message, b.message)
    else (a.Nil? && b.Nil?) || (g(r.topology) && ContentCanCome(r, g, a) && ContentCanCome(r, g, b))
  }

  lemma EventExactly(r: Rules, g: Grants, a: Event, b: Event)
    ensures EventOk(r, g, a, b) <==> EventAllowed(r, g, a, b)
    ensures EventMissing(r, g, a) <==> ContentCanCome(r, g, a)
  {
    hide MessageOk, MessagePresent, AllAllowed, CanCome;
    if a.Event? { PresentExactly(r.schema, g, r.root, a.message); }
    if b.Event? { PresentExactly(r.schema, g, r.root, b.message); }
    if a.Event? && b.Event? { AcceptedExactly(r.schema, g, r.root, a.message, b.message); }
  }

  ghost predicate JudgedAt(r: Rules, g: Grants, acc: seq<Event>, ret: seq<Event>, i: nat)
    requires i < |acc| == |ret|
  {
    acc[i] != ret[i] ==> Marshals(r, acc[i]) && Marshals(r, ret[i]) && EventAllowed(r, g, acc[i], ret[i])
  }

  lemma ResidueInPlace(r: Rules, g: Grants, acc: seq<Event>, ret: seq<Event>, used: set<nat>)
    requires |acc| == |ret| && forall i: nat :: i < |acc| ==> (i in used <==> acc[i] == ret[i])
    ensures ResidueOk(r, g, Others(acc, used, |acc|), Others(ret, used, |ret|)) <==>
              forall i: nat :: i < |acc| && acc[i] != ret[i] ==> EventOk(r, g, acc[i], ret[i])
  {
    hide Others, EventOk;
    var left, surplus := Others(acc, used, |acc|), Others(ret, used, |ret|);
    OthersSameLength(acc, ret, used, |acc|);
    if ResidueOk(r, g, left, surplus) {
      forall i: nat | i < |acc| && acc[i] != ret[i] ensures EventOk(r, g, acc[i], ret[i]) {
        OthersAligned(acc, ret, used, |acc|, i);
        var k :| 0 <= k < |left| && left[k] == acc[i] && surplus[k] == ret[i];
        assert EventOk(r, g, left[k], surplus[k]);
      }
    }
    if forall i: nat :: i < |acc| && acc[i] != ret[i] ==> EventOk(r, g, acc[i], ret[i]) {
      forall k | 0 <= k < |left| ensures EventOk(r, g, left[k], surplus[k]) {
        OthersFrom(acc, ret, used, |acc|, k);
      }
    }
  }

  lemma MarshalsMeans(r: Rules, e: Event)
    ensures WireKey(r, e).Some? <==> Marshals(r, e)
  {
  }

  /** Any number of events changed in place: accepted exactly when every one of them is. */
  lemma InPlaceExactly(r: Rules, g: Grants, acc: seq<Event>, ret: seq<Event>)
    requires NoEcho(acc, ret)
    ensures TransactionOk(r, g, acc, ret) <==> forall i: nat :: i < |acc| ==> JudgedAt(r, g, acc, ret, i)
  {
    hide Matched, InPlace, Others, Accs, Rets, IsPairing, EventOk, EventAllowed, ResidueOk, WireKey, Marshals, Moved;
    PairedInPlace(acc, ret, |acc|);
    InPlaceMeans(acc, ret, |acc|);
    InPlaceStays(acc, ret, |acc|);
    ResidueInPlace(r, g, acc, ret, SamePositions(acc, ret, |acc|));
    assert forall i: nat :: i < |acc| ==> (SameAt(acc, ret, i) <==> acc[i] == ret[i]);
    forall i: nat | i < |acc| && acc[i] != ret[i]
      ensures JudgedAt(r, g, acc, ret, i) <==> WireKey(r, acc[i]).Some? && WireKey(r, ret[i]).Some? && EventOk(r, g, acc[i], ret[i])
    {
      MarshalsMeans(r, acc[i]);
      MarshalsMeans(r, ret[i]);
      EventExactly(r, g, acc[i], ret[i]);
    }
    if forall i: nat :: i < |acc| ==> JudgedAt(r, g, acc, ret, i) {
      forall i: nat | i < |acc| && acc[i] != ret[i]
        ensures WireKey(r, acc[i]).Some? && WireKey(r, ret[i]).Some? && EventOk(r, g, acc[i], ret[i])
      {
        assert JudgedAt(r, g, acc, ret, i);
      }
      assert Keyed(r, acc, ret);
    }
  }

  // ----- one event changed -----

  lemma OneChange(es: seq<Event>, i: nat, e: Event)
    requires i < |es| && es[i] != e
    ensures NoEcho(es, es[i := e])
  {
  }

  /** One event replaced by another, with no other like it: by the topology grant and both contents when the arm changes, by their differences when it does not. */
  lemma ReplacementExactly(r: Rules, g: Grants, es: seq<Event>, i: nat, m: Message)
    requires i < |es| && es[i].Event? && es[i].message != m
    ensures var was := es[i].message;
            TransactionOk(r, g, es, es[i := Event.Event(m)]) <==>
              && r.wire(was).Some? && r.wire(m).Some?
              && if r.arm(was) == r.arm(m) then AllAllowed(r.schema, g, r.root, was, m)
                 else g(r.topology) && CanCome(r.schema, g, r.root, was) && CanCome(r.schema, g, r.root, m)
  {
    hide TransactionOk, AllAllowed, CanCome, NoEcho;
    var was, ret := es[i].message, es[i := Event.Event(m)];
    OneChange(es, i, Event.Event(m));
    InPlaceExactly(r, g, es, ret);
    assert JudgedAt(r, g, es, ret, i) <==> r.wire(was).Some? && r.wire(m).Some? && EventAllowed(r, g, es[i], ret[i]);
    assert forall j: nat :: j < |es| && j != i ==> JudgedAt(r, g, es, ret, j);
  }

  /**
   One value of one event changed at any depth. The transaction is accepted exactly when both
   events can be marshalled, the policies on the way leave the place open, and the change itself
   is granted.
   */
  lemma EditAccepted(r: Rules, g: Grants, es: seq<Event>, i: nat, q: Path, v: Value)
    requires i < |es| && es[i].Event? && Leads(r.schema, r.root, es[i].message, q)
    requires var f, was := FieldAt(r.schema, r.root, es[i].message, q), ValueAt(r.schema, r.root, es[i].message, q);
             was != v && (Shown(f, was) || Shown(f, v)) && (Shown(f, was) && Shown(f, v) ==> f.subtype.None?)
    requires r.arm(es[i].message) == r.arm(Put(r.schema, r.root, es[i].message, q, v))
    ensures var was, now := es[i].message, Put(r.schema, r.root, es[i].message, q, v);
            TransactionOk(r, g, es, es[i := Event.Event(now)]) <==>
              r.wire(was).Some? && r.wire(now).Some? && WayOpen(r.schema, r.root, q, MayChange(r.schema, g, r.root, was, q, v))
  {
    hide TransactionOk, MessageOk, AllAllowed, CanCome, WayOpen, MayChange;
    var was, now := es[i].message, Put(r.schema, r.root, es[i].message, q, v);
    assert ValueAt(r.schema, r.root, now, q) == v;
    ReplacementExactly(r, g, es, i, now);
    AcceptedExactly(r.schema, g, r.root, was, now);
    EditExactly(r.schema, g, r.root, was, q, v);
  }

  // ----- events added and removed at the end -----

  lemma {:induction false} OthersAfter(es: seq<Event>, used: set<nat>, n: nat, m: nat)
    requires n <= m <= |es| && forall i: nat :: i < |es| ==> (i in used <==> i < n)
    ensures Others(es, used, m) == es[n..m]
    decreases m
  {
    if m > n {
      OthersAfter(es, used, n, m - 1);
    } else {
      OthersNone(es, used, m);
    }
  }

  lemma {:induction false} OthersNone(es: seq<Event>, used: set<nat>, n: nat)
    requires n <= |es| && forall i: nat :: i < n ==> i in used
    ensures Others(es, used, n) == []
    decreases n
  {
    if n > 0 { OthersNone(es, used, n - 1); }
  }

  /** The event may come or go: it can be marshalled, and all it carries may. */
  ghost predicate EventCanCome(r: Rules, g: Grants, e: Event) {
    Marshals(r, e) && ContentCanCome(r, g, e)
  }

  lemma MissingMeans(r: Rules, g: Grants, e: Event)
    ensures WireKey(r, e).Some? && EventMissing(r, g, e) <==> EventCanCome(r, g, e)
  {
    hide EventMissing, ContentCanCome, WireKey, Marshals;
    EventExactly(r, g, e, e);
    MarshalsMeans(r, e);
  }

  /** The pairing of a sequence with a longer one that begins with it. */
  lemma PrefixPaired(acc: seq<Event>, ret: seq<Event>)
    requires acc <= ret || ret <= acc
    ensures var ms, n := Pairing(acc, ret), if |acc| < |ret| then |acc| else |ret|;
            && !Moved(ms) && (forall i: nat :: i in Accs(ms) <==> i < n) && (forall i: nat :: i in Rets(ms) <==> i < n)
            && forall i: nat :: SameAt(acc, ret, i) <==> i < n
  {
    hide Matched, InPlace, Accs, Rets, IsPairing, Moved;
    PairedInPlace(acc, ret, |acc|);
    InPlaceMeans(acc, ret, |acc|);
    InPlaceStays(acc, ret, |acc|);
  }

  /** Events added at the end are accepted exactly when topology is granted and everything they carry may come. */
  lemma AppendedExactly(r: Rules, g: Grants, es: seq<Event>, extra: seq<Event>)
    requires extra != []
    ensures TransactionOk(r, g, es, es + extra) <==> g(r.topology) && forall k :: 0 <= k < |extra| ==> EventCanCome(r, g, extra[k])
  {
    hide Matched, Others, Accs, Rets, EventMissing, EventCanCome, WireKey, SameAt, Moved, EventOk;
    var all := es + extra;
    PrefixPaired(es, all);
    OthersAfter(all, Rets(Pairing(es, all)), |es|, |all|);
    OthersNone(es, Accs(Pairing(es, all)), |es|);
    assert LeftOver(es, all) == [] && Surplus(es, all) == all[|es|..|all|] == extra;
    forall k | 0 <= k < |extra| ensures WireKey(r, extra[k]).Some? && EventMissing(r, g, extra[k]) <==> EventCanCome(r, g, extra[k]) {
      MissingMeans(r, g, extra[k]);
    }
    assert forall k :: 0 <= k < |extra| ==> all[|es| + k] == extra[k];
    assert Keyed(r, es, all) <==> forall k :: 0 <= k < |extra| ==> WireKey(r, extra[k]).Some? by {
      TailKeyed(r, es, extra);
    }
  }

  lemma TailKeyed(r: Rules, es: seq<Event>, extra: seq<Event>)
    ensures Keyed(r, es, es + extra) <==> forall k :: 0 <= k < |extra| ==> WireKey(r, extra[k]).Some?
    ensures Keyed(r, es + extra, es) <==> forall k :: 0 <= k < |extra| ==> WireKey(r, extra[k]).Some?
  {
    hide WireKey;
    var all := es + extra;
    assert forall i: nat :: i < |es| ==> all[i] == es[i];
    forall k: nat | k < |extra| ensures all[|es| + k] == extra[k] && !SameAt(es, all, |es| + k) && !SameAt(all, es, |es| + k) {
    }
    if Keyed(r, es, all) || Keyed(r, all, es) {
      forall k: nat | k < |extra| ensures WireKey(r, extra[k]).Some? {
        assert WireKey(r, all[|es| + k]).Some?;
      }
    }
    if forall k :: 0 <= k < |extra| ==> WireKey(r, extra[k]).Some? {
      forall i: nat | i < |all| && i >= |es| ensures WireKey(r, all[i]).Some? {
        assert all[i] == extra[i - |es|];
      }
    }
  }

  /** Events removed from the end are accepted exactly when topology is granted and everything they carry may go. */
  lemma RemovedExactly(r: Rules, g: Grants, es: seq<Event>, extra: seq<Event>)
    requires extra != []
    ensures TransactionOk(r, g, es + extra, es) <==> g(r.topology) && forall k :: 0 <= k < |extra| ==> EventCanCome(r, g, extra[k])
  {
    hide Matched, Others, Accs, Rets, EventMissing, EventCanCome, WireKey, SameAt, Moved, EventOk;
    var all := es + extra;
    PrefixPaired(all, es);
    OthersAfter(all, Accs(Pairing(all, es)), |es|, |all|);
    OthersNone(es, Rets(Pairing(all, es)), |es|);
    assert Surplus(all, es) == [] && LeftOver(all, es) == all[|es|..|all|] == extra;
    forall k | 0 <= k < |extra| ensures WireKey(r, extra[k]).Some? && EventMissing(r, g, extra[k]) <==> EventCanCome(r, g, extra[k]) {
      MissingMeans(r, g, extra[k]);
    }
    assert Keyed(r, all, es) <==> forall k :: 0 <= k < |extra| ==> WireKey(r, extra[k]).Some? by {
      TailKeyed(r, es, extra);
    }
  }
}
