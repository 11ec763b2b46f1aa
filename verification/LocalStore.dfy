/**
 The cache as the host holds it (internal/cache/cache.go:44-235): a map of entries, a recency list
 and a byte counter, changed in place. Every method is proved to do to the entry sequence what
 `LocalCache.Apply` does.
 */
module LocalStore {
  import opened Wrappers
  import opened LocalCache

  function Listed(entries: map<string, Entry>, lru: seq<string>): (es: Entries)
    requires forall k :: k in lru ==> k in entries
    ensures |es| == |lru| && forall i :: 0 <= i < |es| ==> es[i] == entries[lru[i]]
  {
    if lru == [] then [] else Listed(entries, lru[..|lru| - 1]) + [entries[lru[|lru| - 1]]]
  }

  function Without(lru: seq<string>, key: string): (r: seq<string>)
    ensures forall k :: k in r <==> k in lru && k != key
  {
    if lru == [] then []
    else Without(lru[..|lru| - 1], key) + (if lru[|lru| - 1] == key then [] else [lru[|lru| - 1]])
  }

  predicate NoRepeat(lru: seq<string>) {
    forall i, j :: 0 <= i < j < |lru| ==> lru[i] != lru[j]
  }

  /** The list names exactly the map's keys, once each, and every entry sits under its own key. */
  ghost predicate Agree(entries: map<string, Entry>, lru: seq<string>) {
    && NoRepeat(lru)
    && (forall k :: k in lru <==> k in entries)
    && (forall k :: k in entries ==> entries[k].key == k)
  }

  lemma {:induction false} WithoutListed(entries: map<string, Entry>, lru: seq<string>, key: string)
    requires (forall k :: k in lru ==> k in entries) && (forall k :: k in entries ==> entries[k].key == k)
    ensures Listed(entries - {key}, Without(lru, key)) == Drop(Listed(entries, lru), key)
  {
    hide Keep;
    if lru == [] {
      NoDrop(key);
    } else {
      var init, last := lru[..|lru| - 1], lru[|lru| - 1];
      WithoutListed(entries, init, key);
      var es := Listed(entries, init);
      KeepSnoc(es, entries[last], NotKey(key));
      if last != key {
        var w := Without(init, key);
        assert (w + [last])[..|w|] == w;
      }
    }
  }

  lemma NoDrop(key: string)
    ensures Drop([], key) == []
  {
  }

  lemma {:induction false} WithoutNoRepeat(lru: seq<string>, key: string)
    requires NoRepeat(lru)
    ensures NoRepeat(Without(lru, key))
  {
    if lru != [] {
      WithoutNoRepeat(lru[..|lru| - 1], key);
      assert lru[|lru| - 1] !in lru[..|lru| - 1];
    }
  }

  lemma AgreeDistinct(entries: map<string, Entry>, lru: seq<string>)
    requires Agree(entries, lru)
    ensures Distinct(Listed(entries, lru))
  {
    hide Listed;
  }

  lemma FindListed(entries: map<string, Entry>, lru: seq<string>, key: string)
    requires Agree(entries, lru)
    ensures Find(Listed(entries, lru), key) == if key in entries then Some(entries[key]) else None
  {
    hide Listed, Find;
    var es := Listed(entries, lru);
    var f := Find(es, key);
    if key in entries {
      var i :| 0 <= i < |lru| && lru[i] == key;
      assert es[i].key == key;
    }
    if f.Some? {
      var i :| 0 <= i < |es| && es[i] == f.value;
      assert lru[i] == key;
    }
  }

  lemma {:induction false} ListedSame(a: map<string, Entry>, b: map<string, Entry>, lru: seq<string>)
    requires forall k :: k in lru ==> k in a && k in b && a[k] == b[k]
    ensures Listed(a, lru) == Listed(b, lru)
  {
    hide Listed;
  }

  lemma ListedFront(entries: map<string, Entry>, key: string, lru: seq<string>)
    requires (forall k :: k in lru ==> k in entries) && key in entries
    ensures forall k :: k in [key] + lru ==> k in entries
    ensures Listed(entries, [key] + lru) == [entries[key]] + Listed(entries, lru)
  {
    hide Listed;
    var a, b := Listed(entries, [key] + lru), [entries[key]] + Listed(entries, lru);
    forall i | 0 <= i < |a| ensures a[i] == b[i] {
      assert ([key] + lru)[i] == if i == 0 then key else lru[i - 1];
    }
  }

  /** Without the last listed key the rest still agree. */
  lemma AgreeInit(entries: map<string, Entry>, lru: seq<string>)
    requires lru != [] && Agree(entries, lru)
    ensures lru[|lru| - 1] in entries && Agree(entries - {lru[|lru| - 1]}, lru[..|lru| - 1])
  {
    var last, init := lru[|lru| - 1], lru[..|lru| - 1];
    assert last in lru;
    forall k | k in init ensures k in lru && k != last {
      var i :| 0 <= i < |init| && init[i] == k;
      assert lru[i] == k;
    }
    forall k | k in entries && k != last ensures k in init {
      var i :| 0 <= i < |lru| && lru[i] == k;
      assert init[i] == k;
    }
  }

  lemma {:induction false} AgreeSize(entries: map<string, Entry>, lru: seq<string>)
    requires Agree(entries, lru)
    ensures |entries| == |lru|
    decreases |lru|
  {
    if lru == [] {
      assert entries == map[];
    } else {
      hide Agree;
      var last := lru[|lru| - 1];
      AgreeInit(entries, lru);
      AgreeSize(entries - {last}, lru[..|lru| - 1]);
      assert entries == (entries - {last})[last := entries[last]];
    }
  }

  lemma Removal(entries: map<string, Entry>, lru: seq<string>, key: string)
    requires Agree(entries, lru) && key in entries
    ensures Agree(entries - {key}, Without(lru, key))
    ensures var es, r := Listed(entries, lru), Listed(entries - {key}, Without(lru, key));
            && r == Drop(es, key) && |r| == |es| - 1
            && Total(r) == Total(es) - Size(entries[key].key, entries[key].value)
  {
    hide Listed, Drop, Total, Find, Without, NoRepeat;
    AgreeDistinct(entries, lru);
    FindListed(entries, lru, key);
    DropTotal(Listed(entries, lru), key);
    WithoutListed(entries, lru, key);
    WithoutNoRepeat(lru, key);
  }

  lemma Absence(entries: map<string, Entry>, lru: seq<string>, key: string)
    requires Agree(entries, lru) && key !in entries
    ensures Drop(Listed(entries, lru), key) == Listed(entries, lru)
  {
    hide Listed, Drop, Total, Find;
    AgreeDistinct(entries, lru);
    FindListed(entries, lru, key);
    DropTotal(Listed(entries, lru), key);
  }

  lemma Insertion(entries: map<string, Entry>, lru: seq<string>, e: Entry)
    requires Agree(entries, lru) && e.key !in entries
    ensures Agree(entries[e.key := e], [e.key] + lru)
    ensures var es, r := Listed(entries, lru), Listed(entries[e.key := e], [e.key] + lru);
            r == [e] + es && Total(r) == Total(es) + Size(e.key, e.value)
  {
    hide Listed, Total;
    var more := entries[e.key := e];
    ListedSame(entries, more, lru);
    ListedFront(more, e.key, lru);
    TotalCons(e, Listed(entries, lru));
    var list := [e.key] + lru;
    assert forall k :: k in list <==> k == e.key || k in lru;
  }

  datatype SetResult = Stored | NegativeTtl | TooLarge

  class Store {
    const limits: Limits
    var entries: map<string, Entry>
    var lru: seq<string>
    var bytes: int

    /** The map and the list hold the same entries, the counter is their total size, and the bounds hold. */
    ghost predicate Valid()
      reads this
    {
      Sound() && !Over(limits, View())
    }

    ghost predicate Sound()
      reads this
    {
      Agree(entries, lru) && bytes == Total(View())
    }

    ghost function View(): Entries
      requires Agree(entries, lru)
      reads this
    {
      Listed(entries, lru)
    }

    constructor (limits: Limits)
      ensures Valid() && this.limits == limits && View() == []
    {
      this.limits := limits;
      entries := map[];
      lru := [];
      bytes := 0;
    }

    /** removeLocked. */
    method Remove(key: string)
      requires Sound() && key in entries
      modifies this
      ensures Sound() && View() == Drop(old(View()), key) && |View()| == |old(View())| - 1
      ensures entries == old(entries) - {key}
    {
      hide Agree, Listed, Drop, Total, Without;
      Removal(entries, lru, key);
      var e := entries[key];
      entries := entries - {key};
      lru := Without(lru, key);
      bytes := bytes - Size(e.key, e.value);
    }

    /** evictBoundsLocked. */
    method EvictBounds()
      requires Sound()
      modifies this
      ensures Valid() && View() == Fit(limits, old(View()))
    {
      hide Agree, Listed, Drop, Total;
      while (limits.maxEntries > 0 && |entries| > limits.maxEntries) || (limits.maxBytes > 0 && bytes > limits.maxBytes)
        invariant Sound() && Fit(limits, View()) == Fit(limits, old(View()))
        decreases |lru|
      {
        AgreeSize(entries, lru);
        if lru == [] {
          assert false;
        }
        var last := lru[|lru| - 1];
        ghost var before := View();
        AgreeDistinct(entries, lru);
        LastListed(entries, lru);
        Remove(last);
        LastDropped(before);
      }
      AgreeSize(entries, lru);
    }

    method Set(key: string, value: string, ttl: int, now: int) returns (result: SetResult)
      requires Valid()
      modifies this
      ensures Valid() && View() == Apply(limits, old(View()), Op.Set(key, value, ttl, now))
      ensures result.Stored? <==> Admits(limits, Op.Set(key, value, ttl, now))
      ensures result.NegativeTtl? <==> ttl < 0
    {
      hide Agree, Listed, Drop, Total, Fit, Over;
      if ttl < 0 {
        return NegativeTtl;
      }
      var life := if ttl == 0 then limits.ttl else ttl;
      if limits.maxBytes > 0 && Size(key, value) > limits.maxBytes {
        return TooLarge;
      }
      ghost var before := View();
      if key in entries {
        Remove(key);
      } else {
        Absence(entries, lru, key);
      }
      PushFront(Entry(key, value, now + life));
      EvictBounds();
      return Stored;
    }

    /** A new entry at the front of the list, indexed and counted. */
    method PushFront(e: Entry)
      requires Sound() && e.key !in entries
      modifies this
      ensures Sound() && View() == [e] + old(View())
    {
      hide Agree, Listed, Total;
      Insertion(entries, lru, e);
      lru := [e.key] + lru;
      entries := entries[e.key := e];
      bytes := bytes + Size(e.key, e.value);
    }

    method Get(key: string, now: int) returns (hit: Option<string>)
      requires Valid()
      modifies this
      ensures Valid() && View() == Apply(limits, old(View()), Op.Get(key, now))
      ensures hit == Hit(old(View()), key, now)
    {
      hide Agree, Listed, Drop, Total, Over;
      FindListed(entries, lru, key);
      AgreeDistinct(entries, lru);
      ApplyKeeps(limits, View(), Op.Get(key, now));
      if key !in entries {
        return None;
      }
      var e := entries[key];
      Remove(key);
      if now >= e.expiresAt {
        return None;
      }
      PushFront(e);
      return Some(e.value);
    }

    method Delete(key: string)
      requires Valid()
      modifies this
      ensures Valid() && View() == Apply(limits, old(View()), Op.Delete(key))
    {
      hide Agree, Listed, Drop, Total, Over;
      AgreeDistinct(entries, lru);
      ApplyKeeps(limits, View(), Op.Delete(key));
      if key in entries {
        Remove(key);
      } else {
        Absence(entries, lru, key);
      }
    }

    /** The sweep of expired entries, in whatever order the map is walked. */
    method EvictExpired(now: int)
      requires Valid()
      modifies this
      ensures Valid() && View() == Apply(limits, old(View()), Op.Evict(now))
    {
      hide Agree, Listed, Drop, Keep, Total, Over;
      AgreeDistinct(entries, lru);
      ApplyKeeps(limits, View(), Op.Evict(now));
      var todo := entries.Keys;
      ghost var before := View();
      while todo != {}
        invariant Sound() && todo <= entries.Keys
        invariant forall k :: k in entries && k !in todo ==> now < entries[k].expiresAt
        invariant Keep(View(), FreshAt(now)) == Keep(before, FreshAt(now))
        decreases |todo|
      {
        var k :| k in todo;
        todo := todo - {k};
        if now >= entries[k].expiresAt {
          ExpiredGone(entries, lru, k, now);
          Remove(k);
        }
      }
      AllFresh(entries, lru, now);
    }
  }

  lemma AllFresh(entries: map<string, Entry>, lru: seq<string>, now: int)
    requires Agree(entries, lru) && forall k :: k in entries ==> now < entries[k].expiresAt
    ensures Keep(Listed(entries, lru), FreshAt(now)) == Listed(entries, lru)
  {
    hide Keep, Listed;
    KeepAll(Listed(entries, lru), FreshAt(now));
  }

  lemma LastListed(entries: map<string, Entry>, lru: seq<string>)
    requires Agree(entries, lru) && lru != []
    ensures lru[|lru| - 1] in entries
    ensures |Listed(entries, lru)| == |lru| && Listed(entries, lru)[|lru| - 1].key == lru[|lru| - 1]
  {
    assert lru[|lru| - 1] in lru;
  }

  lemma LastDropped(es: Entries)
    requires es != [] && Distinct(es)
    ensures Drop(es, es[|es| - 1].key) == es[..|es| - 1]
  {
    hide Keep;
    var init, last := es[..|es| - 1], es[|es| - 1];
    assert es == init + [last];
    KeepSnoc(init, last, NotKey(last.key));
    assert forall e :: e in init ==> e.key != last.key;
    KeepAll(init, NotKey(last.key));
  }

  /** Removing an expired entry does not change what the sweep leaves. */
  lemma ExpiredGone(entries: map<string, Entry>, lru: seq<string>, key: string, now: int)
    requires Agree(entries, lru) && key in entries && now >= entries[key].expiresAt
    ensures var es := Listed(entries, lru); Keep(Drop(es, key), FreshAt(now)) == Keep(es, FreshAt(now))
  {
    hide Keep, Listed;
    var es := Listed(entries, lru);
    KeepSwap(es, NotKey(key), FreshAt(now));
    var kept := Keep(es, FreshAt(now));
    forall e | e in kept ensures e.key != key {
      var i :| 0 <= i < |es| && es[i] == e;
    }
    KeepAll(kept, NotKey(key));
  }
}
