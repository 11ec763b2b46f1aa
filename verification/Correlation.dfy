/**
 Binding an out-of-band tool call to the one response call that asked for it
 (internal/mcpserver/correlation.go:13-34, 78-218, internal/mcpserver/observe_stream.go:106-119).

 Times are seconds on one clock; the argument digest is a parameter. A run is any sequence of
 observations, commits of staged observations, overflow marks and calls, each at its own time.
 */
module Correlation {
  import opened Wrappers

  const TTL: nat := 120
  const LIMIT: nat := 4096

  datatype Binding = Binding(conversation: string, call: string)

  datatype Record = Record(tool: string, hash: int, expires: nat, consumed: bool)

  type Records = map<Binding, Record>

  /** A tool that is not marked, and a correlator never saturated, read time zero. */
  datatype State = State(records: Records, until: nat, tools: map<string, nat>)

  const Empty: State := State(map[], 0, map[])

  /** argumentHash of a raw argument text. */
  type Digest = string -> Option<int>

  predicate EndsWith(s: string, suffix: string) {
    |suffix| <= |s| && s[|s| - |suffix|..] == suffix
  }

  predicate Names(name: string, tool: string) {
    name == tool || EndsWith(name, "__" + tool)
  }

  function CanonicalTool(name: string): Option<string> {
    if Names(name, "torana_namespaces") then Some("torana_namespaces")
    else if Names(name, "torana_describe") then Some("torana_describe")
    else if Names(name, "torana_search") then Some("torana_search")
    else if Names(name, "torana_invoke") then Some("torana_invoke")
    else None
  }

  datatype Op =
    | Observe(name: string, input: string, binding: Binding, now: nat)
    | Call(name: string, input: string, now: nat)
    | Overflow(marked: set<string>, now: nat)
    /** A staged correlator's records in the order they are walked, with its saturation. */
    | Commit(staged: seq<(Binding, Record)>, until: nat, tools: map<string, nat>, now: nat)

  datatype Outcome = Ignored | Added | Known | Refused | Bound(binding: Binding) | Unbound | Done

  // ----- one step -----

  function LiveRecords(records: Records, now: nat): Records {
    map b | b in records && now < records[b].expires :: records[b]
  }

  function LiveTools(tools: map<string, nat>, now: nat): map<string, nat> {
    map t | t in tools && now < tools[t] :: tools[t]
  }

  function Prune(s: State, now: nat): State {
    s.(records := LiveRecords(s.records, now), tools := LiveTools(s.tools, now))
  }

  predicate Contradicts(was: Record, r: Record) {
    was.tool != r.tool || was.hash != r.hash
  }

  /** recordLocked. */
  function Insert(s: State, b: Binding, r: Record, now: nat): (State, Outcome) {
    if b in s.records then
      (if Contradicts(s.records[b], r) then s.(records := s.records[b := s.records[b].(consumed := true)]) else s, Known)
    else if |s.records| >= LIMIT then (s.(until := now + TTL), Refused)
    else (s.(records := s.records[b := r]), Added)
  }

  function InsertAll(s: State, staged: seq<(Binding, Record)>, now: nat): State {
    if staged == [] then s
    else
      var t := InsertAll(s, staged[..|staged| - 1], now);
      var (b, r) := staged[|staged| - 1];
      if now < r.expires then Insert(t, b, r, now).0 else t
  }

  function Later(a: map<string, nat>, b: map<string, nat>): map<string, nat> {
    map t | t in a.Keys + b.Keys && (t in a || b[t] > 0) :: if t in a && (t !in b || b[t] <= a[t]) then a[t] else b[t]
  }

  predicate Saturated(s: State, tool: string, now: nat) {
    now < s.until || (tool in s.tools && now < s.tools[tool])
  }

  predicate Matching(records: Records, b: Binding, tool: string, hash: int) {
    b in records && !records[b].consumed && records[b].tool == tool && records[b].hash == hash
  }

  /** Exactly one record matches, and it is `b`. */
  ghost predicate OnlyMatch(records: Records, b: Binding, tool: string, hash: int) {
    Matching(records, b, tool, hash) && forall x :: Matching(records, x, tool, hash) ==> x == b
  }

  ghost function Consume(s: State, tool: string, hash: int, now: nat): (State, Outcome) {
    if Saturated(s, tool, now) then (s, Unbound)
    else if exists b :: OnlyMatch(s.records, b, tool, hash) then
      var b :| OnlyMatch(s.records, b, tool, hash);
      (s.(records := s.records[b := s.records[b].(consumed := true)]), Bound(b))
    else (s, Unbound)
  }

  ghost function Step(digest: Digest, s: State, op: Op): (State, Outcome) {
    match op
    case Observe(name, input, binding, now) =>
      var tool, hash := CanonicalTool(name), digest(input);
      if tool.None? || hash.None? || binding.conversation == "" || binding.call == "" then (s, Ignored)
      else Insert(Prune(s, now), binding, Record(tool.value, hash.value, now + TTL, false), now)
    case Call(name, input, now) =>
      var tool, hash := CanonicalTool(name), digest(input);
      if tool.None? || hash.None? then (s, Unbound) else Consume(Prune(s, now), tool.value, hash.value, now)
    case Overflow(marked, now) =>
      (s.(tools := map t | t in s.tools.Keys + marked :: if t in marked then now + TTL else s.tools[t]), Done)
    case Commit(staged, _, _, now) => (InsertAll(Merged(s, op), staged, now), Done)
  }

  // ----- runs -----

  ghost function Run(digest: Digest, s: State, ops: seq<Op>): State {
    if ops == [] then s else Step(digest, Run(digest, s, ops[..|ops| - 1]), ops[|ops| - 1]).0
  }

  /** What the last of `ops[..i + 1]` answers. */
  ghost function Answer(digest: Digest, s: State, ops: seq<Op>, i: nat): Outcome
    requires i < |ops|
  {
    Step(digest, Run(digest, s, ops[..i]), ops[i]).1
  }

  predicate InOrder(ops: seq<Op>) {
    forall i, j :: 0 <= i < j < |ops| ==> ops[i].now <= ops[j].now
  }

  // ----- capacity -----

  lemma LiveFewer(records: Records, now: nat)
    ensures |LiveRecords(records, now)| <= |records|
  {
    var live := LiveRecords(records, now);
    assert live.Keys <= records.Keys;
    Subset(live.Keys, records.Keys);
    assert |live.Keys| == |live| && |records.Keys| == |records|;
  }

  lemma {:induction false} Subset(a: set<Binding>, b: set<Binding>)
    requires a <= b
    ensures |a| <= |b|
  {
    if a != {} {
      var x :| x in a;
      Subset(a - {x}, b - {x});
    }
  }

  lemma InsertFits(s: State, b: Binding, r: Record, now: nat)
    requires |s.records| <= LIMIT
    ensures |Insert(s, b, r, now).0.records| <= LIMIT
  {
    if b in s.records {
      SameSize(s.records, b, s.records[b].(consumed := true));
    }
  }

  lemma SameSize(records: Records, b: Binding, r: Record)
    requires b in records
    ensures |records[b := r]| == |records|
  {
    assert records[b := r].Keys == records.Keys;
    assert |records[b := r].Keys| == |records[b := r]| && |records.Keys| == |records|;
  }

  lemma {:induction false} InsertAllFits(s: State, staged: seq<(Binding, Record)>, now: nat)
    requires |s.records| <= LIMIT
    ensures |InsertAll(s, staged, now).records| <= LIMIT
  {
    hide Insert;
    if staged != [] {
      InsertAllFits(s, staged[..|staged| - 1], now);
      var last := staged[|staged| - 1];
      InsertFits(InsertAll(s, staged[..|staged| - 1], now), last.0, last.1, now);
    }
  }

  lemma StepFits(digest: Digest, s: State, op: Op)
    requires |s.records| <= LIMIT
    ensures |Step(digest, s, op).0.records| <= LIMIT
  {
    hide Insert, InsertAll, CanonicalTool;
    var p := Prune(s, op.now);
    LiveFewer(s.records, op.now);
    match op
    case Observe(name, input, binding, now) =>
      var tool, hash := CanonicalTool(name), digest(input);
      if tool.Some? && hash.Some? {
        InsertFits(p, binding, Record(tool.value, hash.value, now + TTL, false), now);
      }
    case Call(name, input, now) =>
      var tool, hash := CanonicalTool(name), digest(input);
      if tool.Some? && hash.Some? {
        var out := Consume(p, tool.value, hash.value, now);
        if out.1.Bound? {
          SameSize(p.records, out.1.binding, p.records[out.1.binding].(consumed := true));
        }
      }
    case Overflow(marked, now) =>
    case Commit(staged, until, tools, now) =>
      InsertAllFits(Merged(s, op), staged, now);
  }

  /** At most 4096 records are ever kept. */
  lemma {:induction false} RunFits(digest: Digest, s: State, ops: seq<Op>)
    requires |s.records| <= 4096
    ensures |Run(digest, s, ops).records| <= 4096
  {
    hide Step;
    if ops != [] {
      RunFits(digest, s, ops[..|ops| - 1]);
      StepFits(digest, Run(digest, s, ops[..|ops| - 1]), ops[|ops| - 1]);
    }
  }

  // ----- the life of a record -----

  /** A record that can bind no more, alive until `e`. */
  predicate Spent(s: State, b: Binding, e: nat) {
    b in s.records && s.records[b].consumed && s.records[b].expires == e
  }

  /** A record that still can bind, alive until `e`. */
  predicate Armed(s: State, b: Binding, tool: string, hash: int, e: nat) {
    b in s.records && s.records[b] == Record(tool, hash, e, false)
  }

  /** The operation carries evidence about `b` that contradicts what is recorded. */
  predicate Disputes(digest: Digest, op: Op, b: Binding, tool: string, hash: int) {
    match op
    case Observe(name, input, binding, _) =>
      && binding == b && b.conversation != "" && b.call != "" && CanonicalTool(name).Some? && digest(input).Some?
      && (CanonicalTool(name).value != tool || digest(input).value != hash)
    case Commit(staged, _, _, now) =>
      exists i :: 0 <= i < |staged| && staged[i].0 == b && now < staged[i].1.expires
                  && (staged[i].1.tool != tool || staged[i].1.hash != hash)
    case _ => false
  }

  predicate Grows(was: Record, r: Record) {
    r == was || r == was.(consumed := true)
  }

  lemma {:induction false} InsertAllHolds(s: State, staged: seq<(Binding, Record)>, now: nat, b: Binding)
    requires b in s.records
    ensures b in InsertAll(s, staged, now).records
    ensures Grows(s.records[b], InsertAll(s, staged, now).records[b])
    ensures InsertAll(s, staged, now).records[b] != s.records[b] ==>
              exists i :: 0 <= i < |staged| && staged[i].0 == b && now < staged[i].1.expires && Contradicts(s.records[b], staged[i].1)
  {
    if staged != [] {
      var init := staged[..|staged| - 1];
      InsertAllHolds(s, init, now, b);
      if InsertAll(s, init, now).records[b] != s.records[b] {
        var i :| 0 <= i < |init| && init[i].0 == b && now < init[i].1.expires && Contradicts(s.records[b], init[i].1);
        assert staged[i] == init[i];
      } else if InsertAll(s, staged, now).records[b] != s.records[b] {
        assert staged[|staged| - 1].0 == b;
      }
    }
  }

  /** Until it expires a record stays, unchanged but for being spent: by the call it binds or by contradicting evidence. */
  lemma StepHolds(digest: Digest, s: State, op: Op, b: Binding)
    requires b in s.records && op.now < s.records[b].expires
    ensures var r, out := s.records[b], Step(digest, s, op);
            && b in out.0.records && Grows(r, out.0.records[b])
            && (out.1 == Bound(b) ==> !r.consumed && out.0.records[b].consumed)
            && (!r.consumed && out.0.records[b].consumed ==> out.1 == Bound(b) || Disputes(digest, op, b, r.tool, r.hash))
  {
    hide InsertAll, CanonicalTool;
    if op.Commit? {
      InsertAllHolds(Merged(s, op), op.staged, op.now, b);
    }
  }

  /** A live staged record that contradicts a held one spends it. */
  lemma {:induction false} InsertAllSpends(s: State, staged: seq<(Binding, Record)>, now: nat, b: Binding, i: nat)
    requires b in s.records && i < |staged| && staged[i].0 == b && now < staged[i].1.expires && Contradicts(s.records[b], staged[i].1)
    ensures b in InsertAll(s, staged, now).records && InsertAll(s, staged, now).records[b].consumed
    decreases |staged|
  {
    var n := |staged| - 1;
    var init := staged[..n];
    InsertAllHolds(s, init, now, b);
    if i < n {
      InsertAllSpends(s, init, now, b, i);
    }
  }

  /** Evidence that contradicts a held record, observed or committed, spends it. */
  lemma DisputeSpends(digest: Digest, s: State, op: Op, b: Binding)
    requires b in s.records && op.now < s.records[b].expires
    requires Disputes(digest, op, b, s.records[b].tool, s.records[b].hash)
    ensures Spent(Step(digest, s, op).0, b, s.records[b].expires)
  {
    hide CanonicalTool, InsertAll;
    if op.Commit? {
      var i :| 0 <= i < |op.staged| && op.staged[i].0 == b && op.now < op.staged[i].1.expires
               && (op.staged[i].1.tool != s.records[b].tool || op.staged[i].1.hash != s.records[b].hash);
      InsertAllSpends(Merged(s, op), op.staged, op.now, b, i);
      InsertAllHolds(Merged(s, op), op.staged, op.now, b);
    }
  }

  /** The state a commit inserts its staged records into. */
  function Merged(s: State, op: Op): State
    requires op.Commit?
  {
    var p := Prune(s, op.now);
    p.(until := if op.until > p.until then op.until else p.until, tools := Later(p.tools, op.tools))
  }

  lemma {:induction false} SpentStays(digest: Digest, s: State, ops: seq<Op>, b: Binding, e: nat)
    requires Spent(s, b, e) && forall i :: 0 <= i < |ops| ==> ops[i].now < e
    ensures Spent(Run(digest, s, ops), b, e)
  {
    hide Step;
    if ops != [] {
      SpentStays(digest, s, ops[..|ops| - 1], b, e);
      StepHolds(digest, Run(digest, s, ops[..|ops| - 1]), ops[|ops| - 1], b);
    }
  }

  /** A spent record binds nothing while it lives. */
  lemma SpentNeverBinds(digest: Digest, s: State, ops: seq<Op>, b: Binding, e: nat, i: nat)
    requires i < |ops| && Spent(s, b, e) && forall j :: 0 <= j <= i ==> ops[j].now < e
    ensures Answer(digest, s, ops, i) != Bound(b)
  {
    hide Step, Run;
    SpentStays(digest, s, ops[..i], b, e);
    StepHolds(digest, Run(digest, s, ops[..i]), ops[i], b);
  }

  // ----- which calls are the four tools' -----

  /** The tool's name, bare or behind any prefix and two underscores. */
  ghost predicate Qualifies(name: string, tool: string) {
    name == tool || exists prefix: string :: name == prefix + "__" + tool
  }

  lemma NamesExactly(name: string, tool: string)
    ensures Names(name, tool) <==> Qualifies(name, tool)
  {
    var suffix := "__" + tool;
    if EndsWith(name, suffix) {
      var prefix := name[..|name| - |suffix|];
      assert name == prefix + suffix && prefix + suffix == prefix + "__" + tool;
    }
    if prefix: string :| name == prefix + "__" + tool {
      assert name == prefix + suffix;
      assert name[|prefix|..] == suffix;
    }
  }

  /** The last two letters of a name are those of its tool. */
  lemma LastLetters(name: string, tool: string)
    requires Names(name, tool) && |tool| >= 2
    ensures |name| >= 2 && name[|name| - 1] == tool[|tool| - 1] && name[|name| - 2] == tool[|tool| - 2]
  {
    if name != tool {
      var suffix := "__" + tool;
      assert name[|name| - |suffix|..][|suffix| - 1] == suffix[|suffix| - 1];
      assert name[|name| - |suffix|..][|suffix| - 2] == suffix[|suffix| - 2];
    }
  }

  /** The four tools are recognised by their names, bare or qualified, each as itself; nothing else is a tool. */
  lemma ToolExactly(name: string, tool: string)
    ensures CanonicalTool(name) == Some(tool) <==>
              && (tool == "torana_namespaces" || tool == "torana_describe" || tool == "torana_search" || tool == "torana_invoke")
              && Qualifies(name, tool)
  {
    hide Names;
    var a, b, c, d := "torana_namespaces", "torana_describe", "torana_search", "torana_invoke";
    assert a[|a| - 1] == 's' && b[|b| - 1] == 'e' && c[|c| - 1] == 'h' && d[|d| - 1] == 'e' && b[|b| - 2] == 'b' && d[|d| - 2] == 'k';
    NamesExactly(name, tool);
    if Names(name, a) { LastLetters(name, a); }
    if Names(name, b) { LastLetters(name, b); }
    if Names(name, c) { LastLetters(name, c); }
    if Names(name, d) { LastLetters(name, d); }
  }

  // ----- what an observation does -----

  /** The response calls whose records are still live. */
  function Live(s: State, now: nat): set<Binding> {
    set x | x in s.records && now < s.records[x].expires
  }

  /** Recognised: one of the tools, arguments with a digest, and a response call with both its identifiers. */
  predicate Recognised(digest: Digest, op: Op) {
    && op.Observe? && CanonicalTool(op.name).Some? && digest(op.input).Some?
    && op.binding.conversation != "" && op.binding.call != ""
  }

  lemma LiveCount(s: State, now: nat)
    ensures |LiveRecords(s.records, now)| == |Live(s, now)|
  {
    var live := LiveRecords(s.records, now);
    assert live.Keys == Live(s, now) && |live.Keys| == |live|;
  }

  /**
   A recognised observation of an unknown response call is recorded for 120 seconds, able to
   bind, exactly when fewer than 4096 records are live; without room it holds everything back
   for 120 seconds instead. An observation that is not recognised changes nothing.
   */
  lemma ObservationExactly(digest: Digest, s: State, op: Op)
    requires op.Observe?
    ensures var out := Step(digest, s, op);
            && (out.1 == Ignored <==> !Recognised(digest, op))
            && (out.1 == Added <==> Recognised(digest, op) && op.binding !in Live(s, op.now) && |Live(s, op.now)| < 4096)
            && (out.1 == Refused <==> Recognised(digest, op) && op.binding !in Live(s, op.now) && |Live(s, op.now)| >= 4096)
            && (out.1 == Known <==> Recognised(digest, op) && op.binding in Live(s, op.now))
    ensures var out := Step(digest, s, op);
            && (out.1 == Ignored ==> out.0 == s)
            && (out.1 == Refused ==> out.0.until == op.now + 120 && out.0.records.Keys == Live(s, op.now))
            && (out.1 == Added ==>
                  && out.0.records.Keys == Live(s, op.now) + {op.binding}
                  && out.0.records[op.binding] ==
                       Record(CanonicalTool(op.name).value, digest(op.input).value, op.now + 120, false))
  {
    hide CanonicalTool;
    LiveCount(s, op.now);
    assert LiveRecords(s.records, op.now).Keys == Live(s, op.now);
  }

  // ----- whole runs -----

  lemma {:induction false} RunSplit(digest: Digest, s: State, ops: seq<Op>, i: nat, j: nat)
    requires i <= j <= |ops|
    ensures Run(digest, s, ops[..j]) == Run(digest, Run(digest, s, ops[..i]), ops[i..j])
    decreases j - i
  {
    hide Step;
    if i < j {
      RunSplit(digest, s, ops, i, j - 1);
      assert ops[i..j][..j - i - 1] == ops[i..j - 1] && ops[..j][..j - 1] == ops[..j - 1];
    } else {
      assert ops[i..j] == [];
    }
  }

  /** The state after step `i` is where the rest of the run starts. */
  lemma AnswerAfter(digest: Digest, s: State, ops: seq<Op>, i: nat, j: nat)
    requires i < j < |ops|
    ensures var mid := Step(digest, Run(digest, s, ops[..i]), ops[i]).0;
            Answer(digest, s, ops, j) == Answer(digest, mid, ops[i + 1..], j - i - 1)
  {
    hide Step, Run;
    RunSplit(digest, s, ops, i + 1, j);
    assert ops[..i + 1][..i] == ops[..i] && ops[..i + 1][i] == ops[i];
    assert ops[i + 1..][..j - i - 1] == ops[i + 1..j] && ops[i + 1..][j - i - 1] == ops[j];
    RunStep(digest, s, ops[..i + 1]);
  }

  lemma RunStep(digest: Digest, s: State, ops: seq<Op>)
    requires ops != []
    ensures Run(digest, s, ops) == Step(digest, Run(digest, s, ops[..|ops| - 1]), ops[|ops| - 1]).0
  {
    hide Step;
  }

  /** What a bound call leaves: its record spent, alive at that time. */
  lemma BoundSpends(digest: Digest, s: State, op: Op, b: Binding)
    requires Step(digest, s, op).1 == Bound(b)
    ensures b in s.records && op.now < s.records[b].expires && !s.records[b].consumed
    ensures Spent(Step(digest, s, op).0, b, s.records[b].expires)
  {
    hide CanonicalTool, InsertAll;
  }

  /**
   No record binds twice in one life: whatever happens between two calls bound to the same
   response call, replays included, the record the first one bound has expired by the second.
   */
  lemma BindsOncePerLife(digest: Digest, s: State, ops: seq<Op>, i: nat, j: nat, b: Binding)
    requires InOrder(ops) && i < j < |ops|
    requires Answer(digest, s, ops, i) == Bound(b) && Answer(digest, s, ops, j) == Bound(b)
    ensures b in Run(digest, s, ops[..i]).records && Run(digest, s, ops[..i]).records[b].expires <= ops[j].now
  {
    hide Step, Run;
    var was := Run(digest, s, ops[..i]);
    BoundSpends(digest, was, ops[i], b);
    var e, mid, rest := was.records[b].expires, Step(digest, was, ops[i]).0, ops[i + 1..];
    if ops[j].now < e {
      AnswerAfter(digest, s, ops, i, j);
      assert forall k :: 0 <= k <= j - i - 1 ==> rest[k] == ops[i + 1 + k] && rest[k].now <= ops[j].now;
      SpentNeverBinds(digest, mid, rest, b, e, j - i - 1);
    }
  }

  /** Contradicting evidence, observed or committed, ends a record's life for binding. */
  lemma DisputedNeverBinds(digest: Digest, s: State, ops: seq<Op>, i: nat, j: nat, b: Binding)
    requires InOrder(ops) && i < j < |ops|
    requires var was := Run(digest, s, ops[..i]);
             && b in was.records && ops[i].now < was.records[b].expires
             && Disputes(digest, ops[i], b, was.records[b].tool, was.records[b].hash)
             && ops[j].now < was.records[b].expires
    ensures Answer(digest, s, ops, j) != Bound(b)
  {
    hide Step, Run, Disputes;
    var was := Run(digest, s, ops[..i]);
    DisputeSpends(digest, was, ops[i], b);
    var e, mid, rest := was.records[b].expires, Step(digest, was, ops[i]).0, ops[i + 1..];
    AnswerAfter(digest, s, ops, i, j);
    assert forall k :: 0 <= k <= j - i - 1 ==> rest[k] == ops[i + 1 + k] && rest[k].now <= ops[j].now;
    SpentNeverBinds(digest, mid, rest, b, e, j - i - 1);
  }

  // ----- refusals -----

  lemma {:induction false} InsertAllUntil(s: State, staged: seq<(Binding, Record)>, now: nat, u: nat)
    requires u <= s.until && u <= now + TTL
    ensures u <= InsertAll(s, staged, now).until
  {
    if staged != [] {
      InsertAllUntil(s, staged[..|staged| - 1], now, u);
    }
  }

  /** Saturation is never shortened. */
  lemma StepUntil(digest: Digest, s: State, op: Op, u: nat)
    requires u <= s.until && u <= op.now + TTL
    ensures u <= Step(digest, s, op).0.until
  {
    hide CanonicalTool, InsertAll;
    if op.Commit? {
      InsertAllUntil(Merged(s, op), op.staged, op.now, u);
    }
  }

  lemma {:induction false} UntilStays(digest: Digest, s: State, ops: seq<Op>, u: nat)
    requires u <= s.until && forall i :: 0 <= i < |ops| ==> u <= ops[i].now + TTL
    ensures u <= Run(digest, s, ops).until
  {
    hide Step;
    if ops != [] {
      UntilStays(digest, s, ops[..|ops| - 1], u);
      StepUntil(digest, Run(digest, s, ops[..|ops| - 1]), ops[|ops| - 1], u);
    }
  }

  /** Some live staged record finds no room. */
  predicate NoRoom(s: State, staged: seq<(Binding, Record)>, now: nat) {
    exists i :: 0 <= i < |staged| && NoRoomAt(s, staged, now, i)
  }

  predicate NoRoomAt(s: State, staged: seq<(Binding, Record)>, now: nat, i: nat)
    requires i < |staged|
  {
    now < staged[i].1.expires && Insert(InsertAll(s, staged[..i], now), staged[i].0, staged[i].1, now).1.Refused?
  }

  /** The step refuses a record for lack of room: one observed, or one it was to commit. */
  ghost predicate Refuses(digest: Digest, s: State, op: Op) {
    Step(digest, s, op).1.Refused? || (op.Commit? && NoRoom(Merged(s, op), op.staged, op.now))
  }

  lemma {:induction false} NoRoomSaturates(s: State, staged: seq<(Binding, Record)>, now: nat, i: nat)
    requires i < |staged| && NoRoomAt(s, staged, now, i)
    ensures now + TTL <= InsertAll(s, staged, now).until
    decreases |staged|
  {
    var n := |staged| - 1;
    if i < n {
      assert staged[..n][..i] == staged[..i];
      NoRoomSaturates(s, staged[..n], now, i);
    }
  }

  lemma RefusedSaturates(digest: Digest, s: State, op: Op)
    requires Refuses(digest, s, op)
    ensures op.now + TTL <= Step(digest, s, op).0.until
  {
    hide CanonicalTool, InsertAll;
    if op.Commit? && NoRoom(Merged(s, op), op.staged, op.now) {
      var i :| 0 <= i < |op.staged| && NoRoomAt(Merged(s, op), op.staged, op.now, i);
      NoRoomSaturates(Merged(s, op), op.staged, op.now, i);
    }
  }

  lemma SaturatedNeverBinds(digest: Digest, s: State, op: Op)
    requires op.now < s.until
    ensures !Step(digest, s, op).1.Bound?
  {
    hide CanonicalTool, InsertAll;
  }

  /** For 120 seconds after a record is refused for lack of room, observed or committed, nothing binds. */
  lemma NothingBindsAfterRefusal(digest: Digest, s: State, ops: seq<Op>, i: nat, j: nat)
    requires InOrder(ops) && i < j < |ops| && Refuses(digest, Run(digest, s, ops[..i]), ops[i]) && ops[j].now < ops[i].now + 120
    ensures !Answer(digest, s, ops, j).Bound?
  {
    hide Step, Run, Refuses;
    var was := Run(digest, s, ops[..i]);
    RefusedSaturates(digest, was, ops[i]);
    var mid, rest := Step(digest, was, ops[i]).0, ops[i + 1..];
    AnswerAfter(digest, s, ops, i, j);
    var k := j - i - 1;
    assert forall m :: 0 <= m < k ==> rest[..k][m] == ops[i + 1 + m] && ops[i].now <= ops[i + 1 + m].now;
    UntilStays(digest, mid, rest[..k], ops[i].now + TTL);
    SaturatedNeverBinds(digest, Run(digest, mid, rest[..k]), rest[k]);
  }

  // ----- ambiguity is never hidden -----

  lemma {:induction false} ArmedStays(digest: Digest, s: State, ops: seq<Op>, b: Binding, tool: string, hash: int, e: nat)
    requires Armed(s, b, tool, hash, e)
    requires forall i :: 0 <= i < |ops| ==>
               && ops[i].now < e && Answer(digest, s, ops, i) != Bound(b) && !Disputes(digest, ops[i], b, tool, hash)
    ensures Armed(Run(digest, s, ops), b, tool, hash, e)
  {
    hide Step, Disputes;
    if ops != [] {
      var n := |ops| - 1;
      var init := ops[..n];
      assert forall i :: 0 <= i < n ==> init[i] == ops[i] && init[..i] == ops[..i];
      ArmedStays(digest, s, init, b, tool, hash, e);
      StepHolds(digest, Run(digest, s, init), ops[n], b);
      assert Answer(digest, s, ops, n) != Bound(b);
    }
  }

  /** With a record armed, a call that matches it binds it or nothing. */
  lemma ArmedBlocksOthers(digest: Digest, s: State, op: Op, b: Binding, e: nat)
    requires op.Call? && CanonicalTool(op.name).Some? && digest(op.input).Some? && op.now < e
    requires Armed(s, b, CanonicalTool(op.name).value, digest(op.input).value, e)
    ensures var out := Step(digest, s, op).1; out == Unbound || out == Bound(b)
  {
    hide CanonicalTool;
    var tool, hash := CanonicalTool(op.name).value, digest(op.input).value;
    assert Matching(Prune(s, op.now).records, b, tool, hash);
  }

  lemma AddedIsArmed(digest: Digest, s: State, op: Op)
    requires Step(digest, s, op).1 == Added
    ensures op.Observe? && CanonicalTool(op.name).Some? && digest(op.input).Some?
    ensures Armed(Step(digest, s, op).0, op.binding, CanonicalTool(op.name).value, digest(op.input).value, op.now + TTL)
  {
    hide CanonicalTool, InsertAll;
  }

  /** The first staged record for an unknown response call is armed, if it is live, unspent, undisputed and finds room. */
  lemma {:induction false} StagedIsArmed(s: State, staged: seq<(Binding, Record)>, now: nat, i: nat)
    requires i < |staged| && now < staged[i].1.expires && !staged[i].1.consumed
    requires staged[i].0 !in s.records && !NoRoomAt(s, staged, now, i)
    requires forall j :: 0 <= j < |staged| && j != i ==> staged[j].0 != staged[i].0
    ensures Armed(InsertAll(s, staged, now), staged[i].0, staged[i].1.tool, staged[i].1.hash, staged[i].1.expires)
    decreases |staged|
  {
    var n := |staged| - 1;
    var init := staged[..n];
    if i < n {
      assert init[..i] == staged[..i];
      StagedIsArmed(s, init, now, i);
    } else {
      Unstaged(s, init, now, staged[i].0);
    }
  }

  lemma {:induction false} Unstaged(s: State, staged: seq<(Binding, Record)>, now: nat, b: Binding)
    requires forall j :: 0 <= j < |staged| ==> staged[j].0 != b
    ensures b in InsertAll(s, staged, now).records <==> b in s.records
    ensures b in s.records ==> InsertAll(s, staged, now).records[b] == s.records[b]
  {
    if staged != [] {
      Unstaged(s, staged[..|staged| - 1], now, b);
    }
  }

  /** The response call `other` was itself bound or contradicted between steps `i` and `j`. */
  ghost predicate ResolvedBetween(digest: Digest, s: State, ops: seq<Op>, i: nat, j: nat, other: Binding, tool: string, hash: int)
    requires j < |ops|
  {
    exists k :: i < k < j && (Answer(digest, s, ops, k) == Bound(other) || Disputes(digest, ops[k], other, tool, hash))
  }

  /**
   A call binds to one response call only if no other one asks for the same tool with the same
   arguments: any other that some step, an observation or a commit, left recorded and unspent has,
   if it is still live, itself been bound or contradicted since.
   */
  lemma AmbiguityIsNeverHidden(digest: Digest, s: State, ops: seq<Op>, i: nat, j: nat, b: Binding, other: Binding, e: nat)
    requires InOrder(ops) && i < j < |ops| && other != b
    requires ops[j].Call? && CanonicalTool(ops[j].name).Some? && digest(ops[j].input).Some?
    requires Armed(Step(digest, Run(digest, s, ops[..i]), ops[i]).0, other, CanonicalTool(ops[j].name).value, digest(ops[j].input).value, e)
    requires ops[j].now < e && Answer(digest, s, ops, j) == Bound(b)
    ensures ResolvedBetween(digest, s, ops, i, j, other, CanonicalTool(ops[j].name).value, digest(ops[j].input).value)
  {
    hide Step, Run, Disputes, CanonicalTool, Answer;
    var was := Run(digest, s, ops[..i]);
    var tool, hash := CanonicalTool(ops[j].name).value, digest(ops[j].input).value;
    var mid, rest, n := Step(digest, was, ops[i]).0, ops[i + 1..j], j - i - 1;
    if forall k :: i < k < j ==> Answer(digest, s, ops, k) != Bound(other) && !Disputes(digest, ops[k], other, tool, hash) {
      forall m | 0 <= m < |rest|
        ensures rest[m].now < e && Answer(digest, mid, rest, m) != Bound(other) && !Disputes(digest, rest[m], other, tool, hash)
      {
        assert rest[m] == ops[i + 1 + m];
        AnswerAfter(digest, s, ops, i, i + 1 + m);
        AnswerPrefix(digest, mid, ops[i + 1..], n, m);
        assert ops[i + 1..][..n] == rest;
      }
      ArmedStays(digest, mid, rest, other, tool, hash, e);
      AnswerAfter(digest, s, ops, i, j);
      assert ops[i + 1..][..n] == rest && ops[i + 1..][n] == ops[j];
      AnswerIs(digest, mid, ops[i + 1..], n);
      ArmedBlocksOthers(digest, Run(digest, mid, rest), ops[j], other, e);
    }
  }

  /** So a response call observed in the last 120 seconds is never silently passed over. */
  lemma ObservedIsNeverPassedOver(digest: Digest, s: State, ops: seq<Op>, i: nat, j: nat, b: Binding)
    requires InOrder(ops) && i < j < |ops|
    requires Answer(digest, s, ops, i) == Added && Answer(digest, s, ops, j) == Bound(b)
    requires ops[i].Observe? && ops[j].Call? && ops[i].binding != b
    requires CanonicalTool(ops[i].name) == CanonicalTool(ops[j].name) && CanonicalTool(ops[j].name).Some?
    requires digest(ops[i].input) == digest(ops[j].input) && digest(ops[j].input).Some?
    requires ops[j].now < ops[i].now + 120
    ensures ResolvedBetween(digest, s, ops, i, j, ops[i].binding, CanonicalTool(ops[j].name).value, digest(ops[j].input).value)
  {
    hide Step, Run, Disputes, CanonicalTool, Armed;
    AddedIsArmed(digest, Run(digest, s, ops[..i]), ops[i]);
    AmbiguityIsNeverHidden(digest, s, ops, i, j, b, ops[i].binding, ops[i].now + TTL);
  }

  /** Nor is one a commit recorded, while its staged record is live. */
  lemma CommittedIsNeverPassedOver(digest: Digest, s: State, ops: seq<Op>, i: nat, j: nat, n: nat, b: Binding)
    requires InOrder(ops) && i < j < |ops| && ops[i].Commit? && n < |ops[i].staged|
    requires var was, (other, r) := Merged(Run(digest, s, ops[..i]), ops[i]), ops[i].staged[n];
             && other !in was.records && !NoRoomAt(was, ops[i].staged, ops[i].now, n)
             && ops[i].now < r.expires && !r.consumed && other != b && ops[j].now < r.expires
             && ops[j].Call? && CanonicalTool(ops[j].name) == Some(r.tool) && digest(ops[j].input) == Some(r.hash)
    requires forall m :: 0 <= m < |ops[i].staged| && m != n ==> ops[i].staged[m].0 != ops[i].staged[n].0
    requires Answer(digest, s, ops, j) == Bound(b)
    ensures ResolvedBetween(digest, s, ops, i, j, ops[i].staged[n].0, ops[i].staged[n].1.tool, ops[i].staged[n].1.hash)
  {
    hide Run, Disputes, CanonicalTool, Armed, InsertAll, NoRoomAt, Merged;
    var was := Run(digest, s, ops[..i]);
    StagedIsArmed(Merged(was, ops[i]), ops[i].staged, ops[i].now, n);
    AmbiguityIsNeverHidden(digest, s, ops, i, j, b, ops[i].staged[n].0, ops[i].staged[n].1.expires);
  }

  lemma AnswerIs(digest: Digest, s: State, ops: seq<Op>, i: nat)
    requires i < |ops|
    ensures Answer(digest, s, ops, i) == Step(digest, Run(digest, s, ops[..i]), ops[i]).1
  {
    hide Step, Run;
  }

  lemma AnswerPrefix(digest: Digest, s: State, ops: seq<Op>, n: nat, i: nat)
    requires i < n <= |ops|
    ensures Answer(digest, s, ops[..n], i) == Answer(digest, s, ops, i)
  {
    hide Step, Run;
    assert ops[..n][..i] == ops[..i];
  }

  // ----- where a binding comes from -----

  predicate StagedAs(staged: (Binding, Record), b: Binding, tool: string, hash: int, e: nat) {
    staged.0 == b && staged.1.tool == tool && staged.1.hash == hash && staged.1.expires == e
  }

  /** The operation carries `b` with this tool, digest and expiry. */
  predicate Evidence(digest: Digest, op: Op, b: Binding, tool: string, hash: int, e: nat) {
    match op
    case Observe(name, input, binding, now) =>
      binding == b && CanonicalTool(name) == Some(tool) && digest(input) == Some(hash) && e == now + 120
    case Commit(staged, _, _, _) =>
      exists i :: 0 <= i < |staged| && StagedAs(staged[i], b, tool, hash, e)
    case _ => false
  }

  ghost predicate Evidenced(digest: Digest, ops: seq<Op>, b: Binding, r: Record) {
    exists i :: 0 <= i < |ops| && Evidence(digest, ops[i], b, r.tool, r.hash, r.expires)
  }

  lemma InsertFrom(s: State, x: Binding, r: Record, now: nat, b: Binding)
    requires b in Insert(s, x, r, now).0.records
    ensures var after := Insert(s, x, r, now).0.records[b];
            (b in s.records && Grows(s.records[b], after)) || (b == x && after == r)
  {
  }

  lemma {:induction false} InsertAllFrom(s: State, staged: seq<(Binding, Record)>, now: nat, b: Binding)
    requires b in InsertAll(s, staged, now).records
    ensures var r := InsertAll(s, staged, now).records[b];
            (b in s.records && Grows(s.records[b], r)) ||
            exists i :: 0 <= i < |staged| && StagedAs(staged[i], b, r.tool, r.hash, r.expires)
    decreases |staged|
  {
    hide Insert;
    if staged != [] {
      var n := |staged| - 1;
      var init := staged[..n];
      var t, r := InsertAll(s, init, now), InsertAll(s, staged, now).records[b];
      if now < staged[n].1.expires { InsertFrom(t, staged[n].0, staged[n].1, now, b); }
      if b in t.records && Grows(t.records[b], r) {
        InsertAllFrom(s, init, now, b);
        if !(b in s.records && Grows(s.records[b], r)) {
          var i :| 0 <= i < |init| && StagedAs(init[i], b, r.tool, r.hash, r.expires);
          assert StagedAs(staged[i], b, r.tool, r.hash, r.expires);
        }
      } else {
        assert StagedAs(staged[n], b, r.tool, r.hash, r.expires);
      }
    }
  }

  lemma StepFrom(digest: Digest, s: State, op: Op, b: Binding)
    requires b in Step(digest, s, op).0.records
    ensures var r := Step(digest, s, op).0.records[b];
            (b in s.records && Grows(s.records[b], r)) || Evidence(digest, op, b, r.tool, r.hash, r.expires)
  {
    hide InsertAll, CanonicalTool;
    if op.Commit? {
      InsertAllFrom(Merged(s, op), op.staged, op.now, b);
    }
  }

  lemma {:induction false} RunFrom(digest: Digest, ops: seq<Op>, b: Binding)
    requires b in Run(digest, Empty, ops).records
    ensures Evidenced(digest, ops, b, Run(digest, Empty, ops).records[b])
  {
    hide Step, Evidence;
    if ops != [] {
      var init, n := ops[..|ops| - 1], |ops| - 1;
      StepFrom(digest, Run(digest, Empty, init), ops[n], b);
      var r := Run(digest, Empty, ops).records[b];
      if !Evidence(digest, ops[n], b, r.tool, r.hash, r.expires) {
        RunFrom(digest, init, b);
        var i :| 0 <= i < |init| && Evidence(digest, init[i], b, r.tool, r.hash, r.expires);
        assert ops[i] == init[i];
      }
    }
  }

  /** The response call has a live, unspent record of this tool and these arguments. */
  predicate Offers(s: State, b: Binding, tool: string, hash: int, now: nat) {
    && b in s.records && now < s.records[b].expires && !s.records[b].consumed
    && s.records[b].tool == tool && s.records[b].hash == hash
  }

  /** A call is bound exactly when neither everything nor its tool is held back and one response call alone offers it. */
  lemma BindsExactlyTheOnlyMatch(digest: Digest, s: State, op: Op, b: Binding)
    requires op.Call?
    ensures Step(digest, s, op).1 == Bound(b) <==>
              && CanonicalTool(op.name).Some? && digest(op.input).Some?
              && var tool, hash := CanonicalTool(op.name).value, digest(op.input).value;
                 && s.until <= op.now && (tool in s.tools ==> s.tools[tool] <= op.now)
                 && Offers(s, b, tool, hash, op.now)
                 && forall x :: Offers(s, x, tool, hash, op.now) ==> x == b
  {
    hide CanonicalTool;
    var tool, hash := CanonicalTool(op.name), digest(op.input);
    if tool.Some? && hash.Some? {
      var live := LiveRecords(s.records, op.now);
      forall x ensures Matching(live, x, tool.value, hash.value) <==> Offers(s, x, tool.value, hash.value, op.now) {
      }
      forall x, y | OnlyMatch(live, x, tool.value, hash.value) && OnlyMatch(live, y, tool.value, hash.value) ensures x == y {
      }
      if Offers(s, b, tool.value, hash.value, op.now) && forall x :: Offers(s, x, tool.value, hash.value, op.now) ==> x == b {
        assert OnlyMatch(live, b, tool.value, hash.value);
      }
    }
  }

  /** Every bound call was asked for: some earlier, still live evidence names its response call, tool and arguments. */
  lemma BoundHasEvidence(digest: Digest, ops: seq<Op>, j: nat, b: Binding)
    requires j < |ops| && Answer(digest, Empty, ops, j) == Bound(b)
    ensures ops[j].Call? && CanonicalTool(ops[j].name).Some? && digest(ops[j].input).Some?
    ensures exists i, e :: 0 <= i < j && ops[j].now < e &&
              Evidence(digest, ops[i], b, CanonicalTool(ops[j].name).value, digest(ops[j].input).value, e)
  {
    hide Run, CanonicalTool, Evidence, Step;
    var was := Run(digest, Empty, ops[..j]);
    OnlyCallsBind(digest, was, ops[j]);
    BindsExactlyTheOnlyMatch(digest, was, ops[j], b);
    RunFrom(digest, ops[..j], b);
    var r := was.records[b];
    var i :| 0 <= i < j && Evidence(digest, ops[..j][i], b, r.tool, r.hash, r.expires);
    assert ops[..j][i] == ops[i];
  }

  lemma OnlyCallsBind(digest: Digest, s: State, op: Op)
    requires Step(digest, s, op).1.Bound?
    ensures op.Call?
  {
    hide CanonicalTool, InsertAll;
  }

  // ----- overflow -----

  /** The tool is held back until `u` at least. */
  predicate HeldBack(s: State, tool: string, u: nat) {
    tool in s.tools && u <= s.tools[tool]
  }

  lemma {:induction false} InsertAllTools(s: State, staged: seq<(Binding, Record)>, now: nat)
    ensures InsertAll(s, staged, now).tools == s.tools
  {
    if staged != [] {
      InsertAllTools(s, staged[..|staged| - 1], now);
    }
  }

  lemma StepHeldBack(digest: Digest, s: State, op: Op, tool: string, u: nat)
    requires HeldBack(s, tool, u) && op.now < u <= op.now + TTL
    ensures HeldBack(Step(digest, s, op).0, tool, u)
  {
    hide CanonicalTool, InsertAll;
    if op.Commit? {
      InsertAllTools(Merged(s, op), op.staged, op.now);
    }
  }

  lemma {:induction false} HeldBackStays(digest: Digest, s: State, ops: seq<Op>, tool: string, u: nat)
    requires HeldBack(s, tool, u) && forall i :: 0 <= i < |ops| ==> ops[i].now < u <= ops[i].now + TTL
    ensures HeldBack(Run(digest, s, ops), tool, u)
  {
    hide Step;
    if ops != [] {
      HeldBackStays(digest, s, ops[..|ops| - 1], tool, u);
      StepHeldBack(digest, Run(digest, s, ops[..|ops| - 1]), ops[|ops| - 1], tool, u);
    }
  }

  lemma HeldBackNeverBinds(digest: Digest, s: State, op: Op, u: nat)
    requires op.Call? && CanonicalTool(op.name).Some? && HeldBack(s, CanonicalTool(op.name).value, u) && op.now < u
    ensures !Step(digest, s, op).1.Bound?
  {
    hide CanonicalTool;
  }

  /** For 120 seconds after a tool's observations overflowed, no call of that tool binds. */
  lemma NothingBindsAfterOverflow(digest: Digest, s: State, ops: seq<Op>, i: nat, j: nat)
    requires InOrder(ops) && i < j < |ops| && ops[i].Overflow? && ops[j].Call?
    requires CanonicalTool(ops[j].name).Some? && CanonicalTool(ops[j].name).value in ops[i].marked && ops[j].now < ops[i].now + 120
    ensures !Answer(digest, s, ops, j).Bound?
  {
    hide Step, Run, CanonicalTool;
    var was, tool, u := Run(digest, s, ops[..i]), CanonicalTool(ops[j].name).value, ops[i].now + TTL;
    var mid, rest, k := Step(digest, was, ops[i]).0, ops[i + 1..], j - i - 1;
    assert HeldBack(mid, tool, u) by { OverflowHolds(digest, was, ops[i], tool); }
    AnswerAfter(digest, s, ops, i, j);
    assert forall m :: 0 <= m < k ==> rest[..k][m] == ops[i + 1 + m] && ops[i].now <= ops[i + 1 + m].now <= ops[j].now;
    HeldBackStays(digest, mid, rest[..k], tool, u);
    HeldBackNeverBinds(digest, Run(digest, mid, rest[..k]), rest[k], u);
  }

  lemma OverflowHolds(digest: Digest, s: State, op: Op, tool: string)
    requires op.Overflow? && tool in op.marked
    ensures HeldBack(Step(digest, s, op).0, tool, op.now + TTL)
  {
  }

  // ----- staged records already spent -----

  predicate Bindable(s: State, b: Binding) {
    b in s.records && !s.records[b].consumed
  }

  lemma {:induction false} StagedSpends(s: State, staged: seq<(Binding, Record)>, now: nat, i: nat)
    requires i < |staged| && now < staged[i].1.expires && staged[i].1.consumed
    requires forall j :: 0 <= j < |staged| && j != i ==> staged[j].0 != staged[i].0
    ensures var (b, r) := staged[i];
            Bindable(InsertAll(s, staged, now), b) <==> Bindable(s, b) && !Contradicts(s.records[b], r)
    decreases |staged|
  {
    var n := |staged| - 1;
    var init := staged[..n];
    if i < n {
      StagedSpends(s, init, now, i);
    } else {
      Unstaged(s, init, now, staged[i].0);
    }
  }

  /**
   The promise beside CommitFrom is that a staged record already consumed or contradicted stays
   so. Committed, it leaves its response call bindable exactly when a live, unspent record with
   the same tool and arguments was already held: then the staged one is dropped.
   */
  lemma CommitSpendsExactly(digest: Digest, s: State, op: Op, i: nat)
    requires op.Commit? && i < |op.staged| && op.now < op.staged[i].1.expires && op.staged[i].1.consumed
    requires forall j :: 0 <= j < |op.staged| && j != i ==> op.staged[j].0 != op.staged[i].0
    ensures var (b, r) := op.staged[i];
            Bindable(Step(digest, s, op).0, b) <==>
              Bindable(s, b) && op.now < s.records[b].expires && s.records[b].tool == r.tool && s.records[b].hash == r.hash
  {
    hide InsertAll;
    StagedSpends(Merged(s, op), op.staged, op.now, i);
  }

  const ONE := Binding("conversation", "call")

  /** The failing case: a consumed staged record over a held one that agrees with it; the held one still binds. */
  lemma StagedConsumptionIsDropped(digest: Digest, input: string)
    requires digest(input) == Some(7)
    ensures var held := Empty.(records := map[ONE := Record("torana_search", 7, 200, false)]);
            var after := Step(digest, held, Commit([(ONE, Record("torana_search", 7, 200, true))], 0, map[], 100)).0;
            Step(digest, after, Call("torana_search", input, 101)).1 == Bound(ONE)
  {
    var held := Empty.(records := map[ONE := Record("torana_search", 7, 200, false)]);
    var op := Commit([(ONE, Record("torana_search", 7, 200, true))], 0, map[], 100);
    assert op.staged[..0] == [];
    assert Merged(held, op) == held;
    assert InsertAll(held, op.staged[..0], 100) == held;
    assert Step(digest, held, op).0 == held;
    ToolExactly("torana_search", "torana_search");
    BindsExactlyTheOnlyMatch(digest, held, Call("torana_search", input, 101), ONE);
  }

}
