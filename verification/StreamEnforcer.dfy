/**
 The imperative form of the verified stream pipeline: stages and walkers updated event by
 event, as internal/plugin/stream_enforce.go does, each method proved against the
 transition of `StreamPipeline` that it performs.
 */
module StreamEnforcer {
  import opened Wrappers
  import opened StreamDiscipline
  import opened StreamPipeline

  /** pluginStreamState: one stage and the plugin it calls. */
  class PluginStage {
    const plugin: Plugin
    var accepted: seq<Event>
    var returned: seq<Event>
    var walker: State
    var journal: Option<Journal>
    var disabled: bool
    var scopeStart: nat

    function Value(): Stage
      reads this
    {
      Stage(accepted, returned, walker, journal, disabled, scopeStart)
    }

    constructor (plugin: Plugin)
      ensures this.plugin == plugin && Value() == FRESH
    {
      this.plugin := plugin;
      accepted, returned, walker := [], [], INITIAL;
      journal, disabled, scopeStart := None, false, 0;
    }

    /** Walks a candidate batch on a clone; the live walker moves only when all of it is accepted. */
    method Candidate(es: seq<Event>) returns (ok: bool)
      modifies this`walker
      ensures ok <==> Run(old(walker), es).Some?
      ensures walker == if ok then Run(old(walker), es).value else old(walker)
    {
      var candidate := new DisciplineWalker.From(walker);
      ok := candidate.WalkAll(es);
      if ok {
        walker := candidate.Value();
      }
    }

    /** rollbackStreamJournal: replay the originals in place of the held output. */
    method RollBack() returns (replayed: Option<seq<Event>>)
      requires journal.Some? && journal.value.returnedStart <= |returned|
      modifies this
      ensures replayed.Some? <==> Rollback(plugin, old(Value())).Some?
      ensures replayed.Some? ==>
                && Rollback(plugin, old(Value())) == Some(Value())
                && replayed.value == old(journal.value.originals)
    {
      var j := journal.value;
      var replay := new DisciplineWalker.From(j.walker);
      var ok := replay.WalkAll(j.originals);
      if !ok {
        return None;
      }
      walker := replay.Value();
      returned := returned[..j.returnedStart] + j.originals;
      if !plugin.prefix(accepted, returned) {
        return None;
      }
      if !plugin.policy(accepted, returned) {
        return None;
      }
      journal := None;
      disabled := true;
      return Some(j.originals);
    }

    method AddCost(es: seq<Event>)
      requires journal.Some?
      modifies this`journal
      ensures Value() == Charge(plugin, old(Value()), es)
    {
      var j := journal.value;
      var bytes := j.bytes;
      var i := 0;
      while i < |es|
        invariant 0 <= i <= |es|
        invariant bytes == CostOf(plugin, j.bytes, es[..i])
      {
        assert es[..i + 1][..i] == es[..i];
        bytes := (bytes + plugin.cost(es[i])) % UINT64;
        i := i + 1;
      }
      assert es[..|es|] == es;
      journal := Some(j.(bytes := bytes));
    }

    method TakeIn(ev: Event)
      modifies this
      ensures Value() == Receive(plugin, old(Value()), ev)
    {
      accepted := accepted + [ev];
      if journal.Some? {
        var j := journal.value;
        journal := Some(j.(originals := j.originals + [ev], bytes := (j.bytes + plugin.cost(ev)) % UINT64));
      }
    }

    /** Judges a reply; the walker moves only for a reply the host accepts. */
    method Propose(ev: Event, reply: Reply) returns (failed: bool)
      modifies this`walker
      ensures failed <==> Judge(plugin, old(Value()), ev, reply).None?
      ensures walker == if failed then old(walker) else Judge(plugin, old(Value()), ev, reply).value
    {
      if reply.Trap? {
        return true;
      }
      var emitted := reply.events;
      if |emitted| == 1 && SameArm(ev, emitted[0]) && !plugin.mayReplace(ev, emitted[0]) {
        return true;
      }
      var ok := Candidate(emitted);
      return !ok;
    }

    /** Opens or extends the journal for a suppressed tool start and charges the reply to it. */
    method HoldBack(ev: Event, emitted: seq<Event>) returns (failed: bool)
      modifies this`journal
      ensures Value() == Charge(plugin, Defer(plugin, old(Value()), ev, emitted), emitted)
      ensures failed == OverLimit(plugin, Value())
    {
      if |emitted| == 0 && IsToolStart(ev) {
        if journal.None? {
          journal := Some(Journal([ev], [], {}, walker, |returned|, plugin.cost(ev) % UINT64));
        }
        var j := journal.value;
        journal := Some(j.(pending := j.pending + {ev.start.value.index}));
      }
      if journal.Some? {
        AddCost(emitted);
        return journal.value.bytes > plugin.limit;
      }
      return false;
    }

    method Fail(ev: Event) returns (out: Option<seq<Event>>)
      requires journal.Some? ==> journal.value.returnedStart <= |returned|
      modifies this
      ensures out.Some? <==> Recover(plugin, old(Value()), ev).Alive?
      ensures out.Some? ==> Recover(plugin, old(Value()), ev) == Alive(Value(), out.value)
    {
      if plugin.blocks {
        return None;
      }
      if journal.Some? {
        out := RollBack();
        return;
      }
      var ok := Candidate([ev]);
      if !ok {
        return None;
      }
      returned := returned + [ev];
      return Some([ev]);
    }

    method Keep(ev: Event, emitted: seq<Event>) returns (out: seq<Event>)
      modifies this
      ensures Commit(old(Value()), ev, emitted) == Alive(Value(), out)
    {
      returned := returned + emitted;
      if journal.None? {
        return emitted;
      }
      var j := journal.value;
      var pending := j.pending;
      if ev.Stop? && ev.index.Some? {
        pending := pending - {ev.index.value};
      }
      if ev.StreamError? {
        pending := {};
      }
      journal := Some(j.(outputs := j.outputs + emitted, pending := pending));
      return [];
    }

    /** One event through this stage: the events it releases, or None when the stream terminates. */
    method Process(ev: Event, reply: Reply) returns (out: Option<seq<Event>>)
      requires JournalFits(Value())
      modifies this
      ensures out.Some? <==> Feed(plugin, old(Value()), ev, reply).Alive?
      ensures out.Some? ==> Feed(plugin, old(Value()), ev, reply) == Alive(Value(), out.value)
    {
      hide Run, Judge, Recover, Commit, Charge, Defer, Receive;
      JournalStaysInside(plugin, Value(), ev);
      var said := if disabled then Emit([ev]) else reply;
      TakeIn(ev);
      var failed := Propose(ev, said);
      if !failed {
        JudgedEmits(plugin, Receive(plugin, old(Value()), ev), ev, said);
        failed := HoldBack(ev, said.events);
      }
      if failed {
        out := Fail(ev);
      } else {
        var released := Keep(ev, said.events);
        out := Some(released);
      }
    }

    /** Looks for scope closes and terminal events among the events appended since `from`. */
    method Scan(es: seq<Event>, from: nat) returns (closes: nat, terminal: bool)
      ensures closes > 0 <==> HasClose(Since(es, from))
      ensures terminal <==> HasTerminal(Since(es, from))
    {
      closes, terminal := 0, false;
      var i := from;
      while i < |es|
        invariant from <= i
        invariant from <= |es| ==> i <= |es|
        invariant closes > 0 <==> exists k :: from <= k < i && k < |es| && IsClose(es[k])
        invariant terminal <==> exists k :: from <= k < i && k < |es| && IsTerminal(es[k])
        decreases |es| - i
      {
        if IsClose(es[i]) {
          closes := closes + 1;
        }
        if IsTerminal(es[i]) {
          terminal := true;
        }
        i := i + 1;
      }
      ghost var tail := Since(es, from);
      assert forall k :: 0 <= k < |tail| ==> tail[k] == es[from + k];
      assert forall k :: from <= k < |es| ==> es[k] == tail[k - from];
    }

    /** The scope check of a batch that began with the given buffer lengths. */
    method CloseScope(ghost begin: Stage, acceptedStart: nat, returnedStart: nat, released: seq<Event>)
      returns (out: Option<seq<Event>>)
      requires JournalFits(Value())
      requires acceptedStart == |begin.accepted| && returnedStart == |begin.returned|
      modifies this
      ensures out.Some? <==> Settle(plugin, begin, old(Value()), released).Alive?
      ensures out.Some? ==> Settle(plugin, begin, old(Value()), released) == Alive(Value(), out.value)
    {
      hide Run, HasClose, HasTerminal, Since;
      var next := released;
      var acceptedCloses, acceptedTerminal := Scan(accepted, acceptedStart);
      var returnedCloses, returnedTerminal := Scan(returned, returnedStart);
      if (acceptedCloses != 0 || returnedCloses != 0) && (journal.None? || journal.value.pending == {}) {
        var failed := false;
        if acceptedTerminal || returnedTerminal {
          var w := new DisciplineWalker.From(walker);
          var complete := w.End();
          failed := !complete;
        }
        if !failed {
          failed := !plugin.prefix(accepted, returned) || !plugin.policy(accepted, returned);
        }
        if failed {
          if journal.Some? && !plugin.blocks {
            var replay := RollBack();
            if replay.None? {
              return None;
            }
            next := next + replay.value;
          } else {
            return None;
          }
        }
        scopeStart := |accepted|;
      }
      if journal.Some? && journal.value.pending == {} {
        next := next + journal.value.outputs;
        journal := None;
      }
      return Some(next);
    }

    /** A whole batch through this stage. */
    method Batch(evs: seq<Event>, replies: nat -> Reply) returns (out: Option<seq<Event>>)
      requires JournalFits(Value())
      modifies this
      ensures out.Some? <==> RunBatch(plugin, old(Value()), evs, replies).Alive?
      ensures out.Some? ==> RunBatch(plugin, old(Value()), evs, replies) == Alive(Value(), out.value)
      ensures out.Some? ==> JournalFits(Value())
    {
      hide Run, Feed, Settle;
      ghost var begin := Value();
      var acceptedStart, returnedStart := |accepted|, |returned|;
      var next: seq<Event> := [];
      var i := 0;
      while i < |evs|
        invariant 0 <= i <= |evs|
        invariant FeedAll(plugin, begin, evs[..i], replies) == Alive(Value(), next)
        invariant JournalFits(Value())
      {
        assert evs[..i + 1][..i] == evs[..i];
        FeedFits(plugin, Value(), evs[i], replies(|accepted|));
        var released := Process(evs[i], replies(|accepted|));
        if released.None? {
          FeedAllStops(plugin, begin, evs, replies, i + 1);
          return None;
        }
        next := next + released.value;
        i := i + 1;
      }
      assert evs[..|evs|] == evs;
      SettleFits(plugin, begin, Value(), next);
      out := CloseScope(begin, acceptedStart, returnedStart, next);
    }
  }

  predicate JournalFits(s: Stage) {
    s.journal.Some? ==> s.journal.value.returnedStart <= |s.returned|
  }

  lemma JournalStaysInside(p: Plugin, s: Stage, ev: Event)
    requires JournalFits(s)
    ensures JournalFits(Receive(p, s, ev))
    ensures forall w, es :: JournalFits(Charge(p, Defer(p, Receive(p, s, ev).(walker := w), ev, es), es))
  {
  }

  lemma JudgedEmits(p: Plugin, s: Stage, ev: Event, reply: Reply)
    requires Judge(p, s, ev, reply).Some?
    ensures reply.Emit?
  {
  }

  lemma FeedFits(p: Plugin, s: Stage, ev: Event, reply: Reply)
    requires JournalFits(s)
    ensures Feed(p, s, ev, reply).Alive? ==> JournalFits(Feed(p, s, ev, reply).stage)
  {
    hide Run;
  }

  lemma SettleFits(p: Plugin, begin: Stage, s: Stage, published: seq<Event>)
    requires JournalFits(s)
    ensures Settle(p, begin, s, published).Alive? ==> JournalFits(Settle(p, begin, s, published).stage)
  {
    hide Run, HasClose, HasTerminal, Since;
  }

  /** Once a batch has terminated, more events do not revive it. */
  lemma {:induction false} FeedAllStops(p: Plugin, s: Stage, evs: seq<Event>, replies: nat -> Reply, n: nat)
    requires n <= |evs| && FeedAll(p, s, evs[..n], replies).Terminated?
    ensures FeedAll(p, s, evs, replies).Terminated?
    decreases |evs|
  {
    hide Feed;
    if n == |evs| {
      assert evs[..n] == evs;
    } else {
      assert evs[..|evs| - 1][..n] == evs[..n];
      FeedAllStops(p, s, evs[..|evs| - 1], replies, n);
    }
  }

  /** streamVerifierState: the host walker, the stages in pipeline order, and the terminal flag. */
  class StreamVerifier {
    const plugins: seq<Plugin>
    var host: DisciplineWalker
    var stages: seq<PluginStage>
    var terminal: bool

    ghost predicate Valid()
      reads this, stages
    {
      && |stages| == |plugins|
      && (forall i :: 0 <= i < |stages| ==> stages[i].plugin == plugins[i] && JournalFits(stages[i].Value()))
      && (forall i, j :: 0 <= i < j < |stages| ==> stages[i] != stages[j])
    }

    function StageValues(): (values: seq<Stage>)
      reads this, stages
      ensures |values| == |stages| && forall i :: 0 <= i < |stages| ==> values[i] == stages[i].Value()
    {
      seq(|stages|, i requires 0 <= i < |stages| reads this, stages => stages[i].Value())
    }

    function Value(): Verifier
      reads this, host, stages
    {
      Verifier(host.Value(), StageValues())
    }

    constructor (plugins: seq<Plugin>)
      ensures Valid() && fresh(stages) && fresh(host) && this.plugins == plugins && !terminal
      ensures Value() == Start0(plugins)
    {
      this.plugins := plugins;
      host := new DisciplineWalker();
      terminal := false;
      stages := [];
      new;
      var i := 0;
      while i < |plugins|
        invariant 0 <= i == |stages| <= |plugins|
        invariant fresh(stages) && fresh(host) && host.Value() == INITIAL && !terminal
        invariant forall k :: 0 <= k < i ==> stages[k].plugin == plugins[k] && stages[k].Value() == FRESH
        invariant forall j, k :: 0 <= j < k < i ==> stages[j] != stages[k]
      {
        var stage := new PluginStage(plugins[i]);
        stages := stages + [stage];
        i := i + 1;
      }
    }

    /** One stage's turn: only that stage changes. */
    method StageBatch(k: nat, evs: seq<Event>, replies: nat -> Reply) returns (out: Option<seq<Event>>)
      requires Valid() && k < |stages|
      modifies stages[k]
      ensures out.Some? <==> RunBatch(plugins[k], old(StageValues())[k], evs, replies).Alive?
      ensures out.Some? ==>
                && Valid()
                && RunBatch(plugins[k], old(StageValues())[k], evs, replies) == Alive(StageValues()[k], out.value)
                && StageValues() == old(StageValues())[k := StageValues()[k]]
    {
      hide RunBatch, PluginStage.Value, JournalFits;
      out := stages[k].Batch(evs, replies);
    }

    /** The traversal: each stage reads what the one before it released. */
    method Traverse(ev: Event, replies: Replies) returns (out: Option<seq<Event>>)
      requires Valid()
      modifies stages
      ensures out.Some? <==> Through(plugins, replies, old(StageValues()), [ev], |plugins|).Some?
      ensures out.Some? ==>
                && Valid()
                && Through(plugins, replies, old(StageValues()), [ev], |plugins|) == Some((StageValues(), out.value))
    {
      hide RunBatch, PluginStage.Value, StageValues, JournalFits;
      ghost var values := StageValues();
      var current := [ev];
      var k := 0;
      while k < |stages|
        invariant 0 <= k <= |stages|
        invariant Valid()
        invariant Through(plugins, replies, values, [ev], k) == Some((StageValues(), current))
      {
        var next := StageBatch(k, current, ForStage(replies, k));
        if next.None? {
          ThroughStops(plugins, replies, values, [ev], k + 1, |plugins|);
          return None;
        }
        current := next.value;
        k := k + 1;
      }
      return Some(current);
    }

    /** One host event through every stage; None, and the terminal flag, when the stream is over. */
    method RunChunk(ev: Event, replies: Replies) returns (out: Option<seq<Event>>)
      requires Valid()
      modifies this`terminal, host, stages
      ensures old(terminal) ==> out.None? && terminal
      ensures !old(terminal) ==>
                && (out.Some? <==> Chunk(plugins, replies, old(Value()), ev).Some?)
                && terminal == out.None?
      ensures out.Some? ==> Valid() && Chunk(plugins, replies, old(Value()), ev) == Some((Value(), out.value))
    {
      hide Step, Through, JournalFits, PluginStage.Value;
      if terminal {
        return None;
      }
      if plugins == [] {
        return Some([ev]);
      }
      ghost var values := StageValues();
      var ok := host.Walk(ev);
      if !ok {
        terminal := true;
        return None;
      }
      assert StageValues() == values;
      out := Traverse(ev, replies);
      terminal := out.None?;
    }

    /** Every stage's own output is complete. */
    method WalkersEnd() returns (ok: bool)
      requires Valid()
      ensures ok <==> forall i :: 0 <= i < |stages| ==> Complete(stages[i].Value().walker)
    {
      hide Complete, JournalFits;
      ok := true;
      var k := 0;
      while ok && k < |stages|
        invariant 0 <= k <= |stages|
        invariant ok <==> forall i :: 0 <= i < k ==> Complete(stages[i].walker)
      {
        var w := new DisciplineWalker.From(stages[k].walker);
        ok := w.End();
        k := k + 1;
      }
    }

    /** Every pending transaction passes. */
    method ScopesEnd() returns (ok: bool)
      requires Valid()
      ensures ok <==> forall i :: 0 <= i < |stages| && stages[i].Value().scopeStart < |stages[i].Value().accepted| ==>
                                    Verified(plugins[i], stages[i].Value())
    {
      hide JournalFits;
      ok := true;
      var k := 0;
      while ok && k < |stages|
        invariant 0 <= k <= |stages|
        invariant ok <==> forall i :: 0 <= i < k && stages[i].Value().scopeStart < |stages[i].Value().accepted| ==>
                                        Verified(plugins[i], stages[i].Value())
      {
        if stages[k].scopeStart < |stages[k].accepted| {
          ok := plugins[k].prefix(stages[k].accepted, stages[k].returned)
                && plugins[k].policy(stages[k].accepted, stages[k].returned);
        }
        k := k + 1;
      }
    }

    /** EndStreamVerified. */
    method Finish() returns (ok: bool)
      requires Valid()
      modifies this`terminal
      ensures ok == (!old(terminal) && EndStream(plugins, Value()))
      ensures terminal == !ok
    {
      hide Complete, Verified, JournalFits, PluginStage.Value;
      if terminal {
        return false;
      }
      if plugins == [] {
        return true;
      }
      ok := host.End();
      if ok {
        ok := WalkersEnd();
      }
      if ok {
        ok := ScopesEnd();
      }
      terminal := !ok;
    }
  }

  lemma {:induction false} ThroughStops(plugins: seq<Plugin>, replies: Replies, stages: seq<Stage>, evs: seq<Event>, k: nat, n: nat)
    requires k <= n <= |plugins| == |stages|
    requires Through(plugins, replies, stages, evs, k).None?
    ensures Through(plugins, replies, stages, evs, n).None?
  {
    hide RunBatch;
    if k < n { ThroughStops(plugins, replies, stages, evs, k, n - 1); }
  }
}
