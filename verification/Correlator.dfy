/**
 The correlator as the host holds it (internal/mcpserver/correlation.go:30-43, 109-218): records and
 saturation marks changed in place under one lock. Each method does to its state what
 `Correlation.Step` does, whatever order its maps are walked in.
 */
module Correlator {
  import opened Wrappers
  import opened Correlation

  class Correlator {
    var records: Records
    var until: nat
    var tools: map<string, nat>

    ghost function Value(): State
      reads this
    {
      State(records, until, tools)
    }

    constructor ()
      ensures Value() == Empty
    {
      records := map[];
      until := 0;
      tools := map[];
    }

    method PruneTools(now: nat)
      modifies this`tools
      ensures tools == LiveTools(old(tools), now)
    {
      var marks := tools.Keys;
      while marks != {}
        invariant LiveTools(tools, now) == LiveTools(old(tools), now) && marks <= tools.Keys
        invariant forall t :: t in tools && t !in marks ==> now < tools[t]
        decreases |marks|
      {
        var t :| t in marks;
        marks := marks - {t};
        if now >= tools[t] {
          tools := tools - {t};
        }
      }
      assert LiveTools(tools, now) == tools;
    }

    method PruneRecords(now: nat)
      modifies this`records
      ensures records == LiveRecords(old(records), now)
    {
      var keys := records.Keys;
      while keys != {}
        invariant LiveRecords(records, now) == LiveRecords(old(records), now) && keys <= records.Keys
        invariant forall b :: b in records && b !in keys ==> now < records[b].expires
        decreases |keys|
      {
        var b :| b in keys;
        keys := keys - {b};
        if now >= records[b].expires {
          records := records - {b};
        }
      }
      assert LiveRecords(records, now) == records;
    }

    method PruneExpired(now: nat)
      modifies this
      ensures Value() == Prune(old(Value()), now)
    {
      PruneTools(now);
      PruneRecords(now);
    }

    method Keep(b: Binding, r: Record, now: nat) returns (outcome: Outcome)
      modifies this
      ensures (Value(), outcome) == Insert(old(Value()), b, r, now)
    {
      if b in records {
        var was := records[b];
        if Contradicts(was, r) {
          records := records[b := was.(consumed := true)];
        }
        return Known;
      }
      if |records| >= LIMIT {
        until := now + TTL;
        return Refused;
      }
      records := records[b := r];
      return Added;
    }

    method Observe(digest: Digest, name: string, input: string, binding: Binding, now: nat) returns (outcome: Outcome)
      modifies this
      ensures (Value(), outcome) == Step(digest, old(Value()), Op.Observe(name, input, binding, now))
    {
      hide CanonicalTool, Insert, Prune;
      var tool, hash := CanonicalTool(name), digest(input);
      if tool.None? || hash.None? || binding.conversation == "" || binding.call == "" {
        return Ignored;
      }
      PruneExpired(now);
      outcome := Keep(binding, Record(tool.value, hash.value, now + TTL, false), now);
    }

    method Commit(digest: Digest, staged: seq<(Binding, Record)>, stagedUntil: nat, stagedTools: map<string, nat>, now: nat)
      modifies this
      ensures Value() == Step(digest, old(Value()), Op.Commit(staged, stagedUntil, stagedTools, now)).0
    {
      hide Prune, Insert, CanonicalTool;
      PruneExpired(now);
      if stagedUntil > until {
        until := stagedUntil;
      }
      RaiseMarks(stagedTools);
      ghost var start := Value();
      for i := 0 to |staged|
        invariant Value() == InsertAll(start, staged[..i], now)
      {
        assert staged[..i + 1][..i] == staged[..i];
        var (b, r) := staged[i];
        if now < r.expires {
          var _ := Keep(b, r, now);
        }
      }
      assert staged[..|staged|] == staged;
    }

    method RaiseMarks(staged: map<string, nat>)
      modifies this
      ensures Value() == old(Value()).(tools := Later(old(tools), staged))
    {
      hide Later;
      var todo := staged.Keys;
      ghost var done: map<string, nat> := map[];
      LaterNone(tools);
      while todo != {}
        invariant todo <= staged.Keys && records == old(records) && until == old(until)
        invariant done.Keys == staged.Keys - todo && forall t :: t in done ==> done[t] == staged[t]
        invariant tools == Later(old(tools), done)
        decreases |todo|
      {
        var t :| t in todo;
        todo := todo - {t};
        LaterStep(old(tools), done, t, staged[t]);
        if staged[t] > (if t in tools then tools[t] else 0) {
          tools := tools[t := staged[t]];
        }
        done := done[t := staged[t]];
      }
      assert done == staged;
    }

    /** How many records match, and one of them. */
    method CountMatches(tool: string, hash: int) returns (count: nat, found: Option<Binding>)
      ensures count == |set b | b in records && Matching(records, b, tool, hash)|
      ensures count > 0 ==> found.Some? && Matching(records, found.value, tool, hash)
    {
      hide Matching, Matches;
      var todo := records.Keys;
      count, found := 0, None;
      NoneMatched(records, tool, hash);
      while todo != {}
        invariant todo <= records.Keys && count == |Matches(records, todo, tool, hash)|
        invariant count > 0 ==> found.Some? && Matching(records, found.value, tool, hash)
        decreases |todo|
      {
        var b :| b in todo;
        MatchNext(records, todo, b, tool, hash);
        todo := todo - {b};
        if Matching(records, b, tool, hash) {
          found := Some(b);
          count := count + 1;
        }
      }
      AllMatched(records, tool, hash);
    }

    method Call(digest: Digest, name: string, input: string, now: nat) returns (outcome: Outcome)
      modifies this
      ensures (Value(), outcome) == Step(digest, old(Value()), Op.Call(name, input, now))
    {
      hide CanonicalTool, Prune;
      var tool, hash := CanonicalTool(name), digest(input);
      if tool.None? || hash.None? {
        return Unbound;
      }
      PruneExpired(now);
      if now < until || (tool.value in tools && now < tools[tool.value]) {
        return Unbound;
      }
      var count, found := CountMatches(tool.value, hash.value);
      OneMatch(records, tool.value, hash.value);
      if count != 1 {
        return Unbound;
      }
      assert OnlyMatch(records, found.value, tool.value, hash.value);
      records := records[found.value := records[found.value].(consumed := true)];
      return Bound(found.value);
    }
  }

  lemma LaterNone(a: map<string, nat>)
    ensures Later(a, map[]) == a
  {
  }

  lemma LaterStep(a: map<string, nat>, b: map<string, nat>, t: string, v: nat)
    requires t !in b
    ensures var l := Later(a, b); Later(a, b[t := v]) == if v > (if t in l then l[t] else 0) then l[t := v] else l
  {
  }

  /** One matching record by count is one by uniqueness. */
  lemma OneMatch(records: Records, tool: string, hash: int)
    ensures var all := set b | b in records && Matching(records, b, tool, hash);
            && (|all| == 1 <==> exists b :: OnlyMatch(records, b, tool, hash))
            && (|all| == 1 ==> forall b :: Matching(records, b, tool, hash) ==> OnlyMatch(records, b, tool, hash))
  {
    var all := set b | b in records && Matching(records, b, tool, hash);
    assert forall x :: Matching(records, x, tool, hash) <==> x in all;
    if |all| == 1 {
      Single(all);
      var b :| b in all;
      assert OnlyMatch(records, b, tool, hash);
    }
    if b :| OnlyMatch(records, b, tool, hash) {
      assert all == {b};
    }
  }

  lemma Single(all: set<Binding>)
    requires |all| == 1
    ensures forall x, y :: x in all && y in all ==> x == y
  {
    forall x, y | x in all && y in all ensures x == y {
      Two(all, x, y);
    }
  }

  lemma Two(all: set<Binding>, x: Binding, y: Binding)
    requires x in all && y in all
    ensures x == y || |all| >= 2
  {
    Subset({x, y}, all);
  }

  /** The matching records no longer to be visited. */
  ghost function Matches(records: Records, todo: set<Binding>, tool: string, hash: int): set<Binding> {
    set b | b in records && b !in todo && Matching(records, b, tool, hash)
  }

  lemma NoneMatched(records: Records, tool: string, hash: int)
    ensures Matches(records, records.Keys, tool, hash) == {}
  {
  }

  lemma AllMatched(records: Records, tool: string, hash: int)
    ensures Matches(records, {}, tool, hash) == set b | b in records && Matching(records, b, tool, hash)
  {
  }

  lemma MatchNext(records: Records, todo: set<Binding>, b: Binding, tool: string, hash: int)
    requires b in todo && todo <= records.Keys
    ensures |Matches(records, todo - {b}, tool, hash)| ==
              |Matches(records, todo, tool, hash)| + (if Matching(records, b, tool, hash) then 1 else 0)
  {
    hide Matching;
    var before, after := Matches(records, todo, tool, hash), Matches(records, todo - {b}, tool, hash);
    assert after == if Matching(records, b, tool, hash) then before + {b} else before;
  }
}
