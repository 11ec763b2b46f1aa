/**
 The journal as a transaction over whole runs (internal/plugin/stream_enforce.go:664-755, 788-825,
 877-900): from the moment a stage suppresses a tool start it publishes nothing; if the transaction
 is ever rolled back, the stage's published stream is from then on what it had published at that
 moment followed by every event it was handed since, until the stream terminates.
 */
module StreamJournal {
  import opened Wrappers
  import opened StreamDiscipline
  import opened StreamPipeline

  /** No transaction is open and none was rolled back. */
  predicate Idle(s: Stage) {
    s.journal.None? && !s.disabled
  }

  /** A transaction that opened when the stage had been handed `n` events and had published `q`. */
  predicate Holding(s: Stage, q: seq<Event>, n: nat) {
    && s.journal.Some? && !s.disabled && |s.journal.value.originals| <= |s.accepted|
    && Mark(s) == n && Published(s) == q
  }

  /** Such a transaction rolled back: everything handed over since stands in place of what the plugin made of it. */
  predicate Restored(s: Stage, q: seq<Event>, n: nat) {
    s.disabled && s.journal.None? && n <= |s.accepted| && Published(s) == q + s.accepted[n..]
  }

  predicate Open(s: Stage, q: seq<Event>, n: nat) {
    Holding(s, q, n) || Restored(s, q, n)
  }

  // ----- one event -----

  lemma RestoredStays(p: Plugin, s: Stage, ev: Event, reply: Reply, q: seq<Event>, n: nat)
    requires StageInv(p, s) && Restored(s, q, n)
    ensures var o := Feed(p, s, ev, reply); o.Alive? ==> Restored(o.stage, q, n)
  {
    hide Step, Run, StageInv, Feed;
    DisabledForwards(p, s, ev, reply);
    var a := s.accepted;
    assert (a + [ev])[n..] == a[n..] + [ev];
    assert q + (a[n..] + [ev]) == q + a[n..] + [ev];
  }

  lemma HoldingStays(p: Plugin, s: Stage, ev: Event, reply: Reply, q: seq<Event>, n: nat)
    requires StageInv(p, s) && Run(INITIAL, s.accepted + [ev]).Some? && Holding(s, q, n)
    ensures var o := Feed(p, s, ev, reply); o.Alive? ==> Open(o.stage, q, n)
  {
    hide Step, Run, StageInv, Feed, Published;
    FailureRestores(p, s, ev, reply);
    FeedKeeps(p, s, ev, reply);
  }

  /** A stage at rest stays at rest or opens a transaction at this event, which may fail at once. */
  lemma IdleOpens(p: Plugin, s: Stage, ev: Event, reply: Reply)
    requires StageInv(p, s) && Run(INITIAL, s.accepted + [ev]).Some? && Idle(s)
    ensures var o := Feed(p, s, ev, reply);
            o.Alive? ==> Idle(o.stage) || Open(o.stage, Published(s), |s.accepted|)
  {
    hide Step, Run, CostOf, JournalCore, PendingOpen;
    var s1 := Receive(p, s, ev);
    var w := Judge(p, s1, ev, reply);
    if w.Some? && reply.events == [] && IsToolStart(ev) {
      Opened(p, s, ev, w.value);
    }
  }

  lemma Opened(p: Plugin, s: Stage, ev: Event, w: State)
    requires Idle(s)
    ensures var r := Charge(p, Defer(p, Receive(p, s, ev).(walker := w), ev, []), []);
            && (IsToolStart(ev) ==> Holding(r, s.returned, |s.accepted|) && r.journal.value.originals == [ev] && r.returned == s.returned)
            && (IsToolStart(ev) && OverLimit(p, r) ==>
                  var o := Recover(p, r, ev); o.Alive? ==> Restored(o.stage, s.returned, |s.accepted|))
  {
    hide Step, Run, Verified;
    assert (s.accepted + [ev])[|s.accepted|..] == [ev];
    assert s.returned[..|s.returned|] == s.returned;
  }

  // ----- one batch -----

  lemma {:induction false} OpenStaysAll(p: Plugin, s: Stage, evs: seq<Event>, replies: nat -> Reply, q: seq<Event>, n: nat)
    requires StageInv(p, s) && Run(INITIAL, s.accepted + evs).Some? && Open(s, q, n)
    ensures var o := FeedAll(p, s, evs, replies); o.Alive? ==> Open(o.stage, q, n)
    decreases |evs|
  {
    hide Step, Run, StageInv, Feed, Holding, Restored;
    if evs != [] {
      var init, ev := evs[..|evs| - 1], evs[|evs| - 1];
      assert s.accepted + evs == (s.accepted + init) + [ev];
      RunAppend(INITIAL, s.accepted + init, [ev]);
      OpenStaysAll(p, s, init, replies, q, n);
      FeedAllKeeps(p, s, init, replies);
      var before := FeedAll(p, s, init, replies);
      if before.Alive? {
        OpenStays(p, before.stage, ev, replies(|before.stage.accepted|), q, n);
      }
    }
  }

  lemma OpenStays(p: Plugin, s: Stage, ev: Event, reply: Reply, q: seq<Event>, n: nat)
    requires StageInv(p, s) && Run(INITIAL, s.accepted + [ev]).Some? && Open(s, q, n)
    ensures var o := Feed(p, s, ev, reply); o.Alive? ==> Open(o.stage, q, n)
  {
    hide Step, Run, StageInv, Feed, Holding, Restored;
    if Holding(s, q, n) {
      HoldingStays(p, s, ev, reply, q, n);
    } else {
      RestoredStays(p, s, ev, reply, q, n);
    }
  }

  /** The stage after the first `j` events of a batch. */
  function After(p: Plugin, s: Stage, evs: seq<Event>, replies: nat -> Reply, j: nat): Option<Stage>
    requires j <= |evs|
  {
    var o := FeedAll(p, s, evs[..j], replies);
    if o.Alive? then Some(o.stage) else None
  }

  /** In the batch, the stage was at rest after `j` events and the next one opened the transaction `f` stems from. */
  ghost predicate OpenedAt(p: Plugin, s: Stage, evs: seq<Event>, replies: nat -> Reply, j: nat, f: Stage) {
    && j < |evs| && After(p, s, evs, replies, j).Some? && After(p, s, evs, replies, j + 1).Some?
    && var s0, s1 := After(p, s, evs, replies, j).value, After(p, s, evs, replies, j + 1).value;
       Idle(s0) && Open(s1, Published(s0), |s0.accepted|) && Open(f, Published(s0), |s0.accepted|)
  }

  lemma {:induction false} IdleOpensAll(p: Plugin, s: Stage, evs: seq<Event>, replies: nat -> Reply)
    requires StageInv(p, s) && Run(INITIAL, s.accepted + evs).Some? && Idle(s)
    ensures var o := FeedAll(p, s, evs, replies);
            o.Alive? ==> Idle(o.stage) || exists j: nat :: OpenedAt(p, s, evs, replies, j, o.stage)
    decreases |evs|
  {
    hide Step, Run, StageInv, Feed, Open, Published;
    if evs != [] {
      var m := |evs| - 1;
      var init, ev := evs[..m], evs[m];
      assert s.accepted + evs == (s.accepted + init) + [ev];
      RunAppend(INITIAL, s.accepted + init, [ev]);
      IdleOpensAll(p, s, init, replies);
      FeedAllKeeps(p, s, init, replies);
      var before, o := FeedAll(p, s, init, replies), FeedAll(p, s, evs, replies);
      if o.Alive? {
        var reply := replies(|before.stage.accepted|);
        if Idle(before.stage) {
          IdleOpens(p, before.stage, ev, reply);
          assert evs[..m + 1] == evs;
          assert Idle(o.stage) || OpenedAt(p, s, evs, replies, m, o.stage);
        } else {
          var j: nat :| OpenedAt(p, s, init, replies, j, before.stage);
          assert init[..j] == evs[..j] && init[..j + 1] == evs[..j + 1];
          var s0 := After(p, s, init, replies, j).value;
          OpenStays(p, before.stage, ev, reply, Published(s0), |s0.accepted|);
          assert OpenedAt(p, s, evs, replies, j, o.stage);
        }
      }
    }
  }

  /** The scope check keeps a transaction open, commits it, or rolls it back. */
  lemma SettleFate(p: Plugin, begin: Stage, s: Stage, published: seq<Event>, q: seq<Event>, n: nat)
    requires StageInv(p, s)
    ensures var o := Settle(p, begin, s, published);
            o.Alive? ==> (Idle(s) ==> Idle(o.stage)) && (Restored(s, q, n) ==> Restored(o.stage, q, n))
                         && (Holding(s, q, n) ==> Idle(o.stage) || Open(o.stage, q, n))
  {
    hide Step, Run, HasClose, HasTerminal, Since, Verified, Rollback;
    if s.journal.Some? && Rollback(p, s).Some? {
      RollbackRestores(p, s);
    }
  }

  lemma BatchFate(p: Plugin, s: Stage, evs: seq<Event>, replies: nat -> Reply, q: seq<Event>, n: nat)
    requires StageInv(p, s) && Run(INITIAL, s.accepted + evs).Some?
    ensures var o := RunBatch(p, s, evs, replies);
            o.Alive? ==>
              && (Idle(s) ==> Idle(o.stage) || exists j: nat :: OpenedAt(p, s, evs, replies, j, o.stage))
              && (Holding(s, q, n) ==> Idle(o.stage) || Open(o.stage, q, n))
              && (Restored(s, q, n) ==> Restored(o.stage, q, n))
  {
    hide Step, Run, StageInv, FeedAll, Settle, Holding, Restored, Idle, After;
    FeedAllKeeps(p, s, evs, replies);
    var fed := FeedAll(p, s, evs, replies);
    if fed.Alive? {
      var f := fed.stage;
      SettleFate(p, s, f, fed.published, q, n);
      if Idle(s) {
        IdleOpensAll(p, s, evs, replies);
        if !Idle(f) {
          var j: nat :| OpenedAt(p, s, evs, replies, j, f);
          var s0 := After(p, s, evs, replies, j).value;
          SettleFate(p, s, f, fed.published, Published(s0), |s0.accepted|);
          var o := Settle(p, s, f, fed.published);
          assert o.Alive? ==> Idle(o.stage) || OpenedAt(p, s, evs, replies, j, o.stage);
        }
      }
      if Open(s, q, n) {
        OpenStaysAll(p, s, evs, replies, q, n);
      }
      if Restored(s, q, n) {
        RestoredAll(p, s, evs, replies, q, n);
      }
    }
  }

  lemma {:induction false} RestoredAll(p: Plugin, s: Stage, evs: seq<Event>, replies: nat -> Reply, q: seq<Event>, n: nat)
    requires StageInv(p, s) && Run(INITIAL, s.accepted + evs).Some? && Restored(s, q, n)
    ensures var o := FeedAll(p, s, evs, replies); o.Alive? ==> Restored(o.stage, q, n)
    decreases |evs|
  {
    hide Step, Run, StageInv, Feed, Restored;
    if evs != [] {
      var init, ev := evs[..|evs| - 1], evs[|evs| - 1];
      assert s.accepted + evs == (s.accepted + init) + [ev];
      RunAppend(INITIAL, s.accepted + init, [ev]);
      RestoredAll(p, s, init, replies, q, n);
      FeedAllKeeps(p, s, init, replies);
      var before := FeedAll(p, s, init, replies);
      if before.Alive? {
        RestoredStays(p, before.stage, ev, replies(|before.stage.accepted|), q, n);
      }
    }
  }

  // ----- whole runs -----

  /** What stage `k` is handed for the event `ev`, when the stages before it survive it. */
  function Batch(plugins: seq<Plugin>, replies: Replies, stages: seq<Stage>, ev: Event, k: nat): Option<seq<Event>>
    requires k < |plugins| == |stages|
  {
    var t := Through(plugins, replies, stages, [ev], k);
    if t.None? then None else Some(t.value.1)
  }

  lemma {:induction false} ThroughAt(plugins: seq<Plugin>, replies: Replies, stages: seq<Stage>, ev: Event, k: nat, m: nat)
    requires k < m <= |plugins| == |stages| && Through(plugins, replies, stages, [ev], m).Some?
    ensures var b := Batch(plugins, replies, stages, ev, k);
            && b.Some?
            && var o := RunBatch(plugins[k], stages[k], b.value, ForStage(replies, k));
               o.Alive? && Through(plugins, replies, stages, [ev], m).value.0[k] == o.stage
    decreases m
  {
    hide RunBatch;
    if m == k + 1 {
      var before := Through(plugins, replies, stages, [ev], k).value.0;
      assert before[k] == before[k..][0] == stages[k..][0] == stages[k];
    } else {
      ThroughAt(plugins, replies, stages, ev, k, m - 1);
    }
  }

  /**
   In the run over `input`, stage `k` was at rest when the `j`-th event of its batch for host event
   `t` opened the transaction that `f` stems from: it had then been handed the events of `s0` and
   had published what `s0` had.
   */
  ghost predicate BornAt(plugins: seq<Plugin>, replies: Replies, input: seq<Event>, k: nat, t: nat, j: nat, f: Stage)
    requires k < |plugins|
  {
    && t < |input| && RunStream(plugins, replies, input[..t]).0.Some?
    && var stages := RunStream(plugins, replies, input[..t]).0.value.stages;
       var b := Batch(plugins, replies, stages, input[t], k);
       b.Some? && OpenedAt(plugins[k], stages[k], b.value, ForStage(replies, k), j, f)
  }

  ghost predicate Traced(plugins: seq<Plugin>, replies: Replies, input: seq<Event>, k: nat, f: Stage)
    requires k < |plugins|
  {
    Idle(f) || exists t: nat, j: nat :: BornAt(plugins, replies, input, k, t, j, f)
  }

  /** A transaction keeps its birth through a further batch. */
  lemma BornStays(plugins: seq<Plugin>, replies: Replies, input: seq<Event>, ev: Event, k: nat, t: nat, j: nat,
                  f: Stage, evs: seq<Event>)
    requires k < |plugins| && BornAt(plugins, replies, input, k, t, j, f)
    requires StageInv(plugins[k], f) && Run(INITIAL, f.accepted + evs).Some?
    ensures var o := RunBatch(plugins[k], f, evs, ForStage(replies, k));
            o.Alive? ==> Idle(o.stage) || BornAt(plugins, replies, input + [ev], k, t, j, o.stage)
  {
    hide Step, Run, StageInv, RunBatch, RunStream, Through, After, Holding, Restored, Idle, Published;
    assert (input + [ev])[..t] == input[..t] && (input + [ev])[t] == input[t];
    var stages := RunStream(plugins, replies, input[..t]).0.value.stages;
    var b := Batch(plugins, replies, stages, input[t], k).value;
    var s0 := After(plugins[k], stages[k], b, ForStage(replies, k), j).value;
    BatchFate(plugins[k], f, evs, ForStage(replies, k), Published(s0), |s0.accepted|);
  }

  lemma BornNow(plugins: seq<Plugin>, replies: Replies, input: seq<Event>, ev: Event, k: nat, v: Verifier, evs: seq<Event>)
    requires k < |plugins| == |v.stages| && RunStream(plugins, replies, input).0 == Some(v)
    requires Batch(plugins, replies, v.stages, ev, k) == Some(evs) && Idle(v.stages[k])
    requires StageInv(plugins[k], v.stages[k]) && Run(INITIAL, v.stages[k].accepted + evs).Some?
    ensures var o := RunBatch(plugins[k], v.stages[k], evs, ForStage(replies, k));
            o.Alive? ==> Traced(plugins, replies, input + [ev], k, o.stage)
  {
    hide Step, Run, StageInv, RunBatch, RunStream, Through, After, Holding, Restored, Idle, Published, OpenedAt, Batch;
    var all, s := input + [ev], v.stages[k];
    assert all[..|input|] == input && all[|input|] == ev;
    BatchFate(plugins[k], s, evs, ForStage(replies, k), [], 0);
    var o := RunBatch(plugins[k], s, evs, ForStage(replies, k));
    if o.Alive? && !Idle(o.stage) {
      var j: nat :| OpenedAt(plugins[k], s, evs, ForStage(replies, k), j, o.stage);
      assert BornAt(plugins, replies, all, k, |input|, j, o.stage);
    }
  }

  /** What stage `k` is handed for an event continues an accepted trace. */
  lemma BatchAccepted(plugins: seq<Plugin>, replies: Replies, v: Verifier, input: seq<Event>, ev: Event, k: nat)
    requires plugins != [] && k < |plugins| && ChainInv(plugins, v, input) && Accepts(input + [ev])
    requires Batch(plugins, replies, v.stages, ev, k).Some?
    ensures Run(INITIAL, v.stages[k].accepted + Batch(plugins, replies, v.stages, ev, k).value).Some?
  {
    hide Step, Run, RunBatch, StageInv, AtRest, Published;
    ThroughKeeps(plugins, replies, v, input, ev, k);
    var t := Through(plugins, replies, v.stages, [ev], k).value;
    HandedAccepted(plugins, t.0, input + [ev], k);
  }

  lemma ChunkTraced(plugins: seq<Plugin>, replies: Replies, input: seq<Event>, ev: Event, v: Verifier, k: nat)
    requires k < |plugins| && RunStream(plugins, replies, input).0 == Some(v) && ChainInv(plugins, v, input)
    requires Traced(plugins, replies, input, k, v.stages[k]) && Chunk(plugins, replies, v, ev).Some?
    ensures Traced(plugins, replies, input + [ev], k, Chunk(plugins, replies, v, ev).value.0.stages[k])
  {
    hide Step, Run, StageInv, RunBatch, RunStream, Through, BornAt, Idle, AtRest, Batch, Published;
    RunAppend(INITIAL, input, [ev]);
    RunOne(v.host, ev);
    ThroughAt(plugins, replies, v.stages, ev, k, |plugins|);
    var evs := Batch(plugins, replies, v.stages, ev, k).value;
    BatchAccepted(plugins, replies, v, input, ev, k);
    if Idle(v.stages[k]) {
      BornNow(plugins, replies, input, ev, k, v, evs);
    } else {
      var t: nat, j: nat :| BornAt(plugins, replies, input, k, t, j, v.stages[k]);
      BornStays(plugins, replies, input, ev, k, t, j, v.stages[k], evs);
    }
  }

  lemma {:induction false} EveryStageTraced(plugins: seq<Plugin>, replies: Replies, input: seq<Event>, k: nat)
    requires k < |plugins| && RunStream(plugins, replies, input).0.Some?
    ensures Traced(plugins, replies, input, k, RunStream(plugins, replies, input).0.value.stages[k])
    decreases |input|
  {
    hide Chunk, BornAt, ChainInv;
    if input != [] {
      var init, ev := input[..|input| - 1], input[|input| - 1];
      EveryStageTraced(plugins, replies, init, k);
      EveryRunIsSafe(plugins, replies, init);
      assert input == init + [ev];
      ChunkTraced(plugins, replies, init, ev, RunStream(plugins, replies, init).0.value, k);
    }
  }

  /**
   The transaction law of the journal, for any plugins, replies and input. If a stage is disabled,
   then at some event of some batch it had been at rest and opened a journal, and its published
   stream is what it had published just before that event followed by every event it was handed
   from that one on, in order, up to now.
   */
  lemma DisabledRestores(plugins: seq<Plugin>, replies: Replies, input: seq<Event>, k: nat)
    requires k < |plugins| && RunStream(plugins, replies, input).0.Some?
    requires RunStream(plugins, replies, input).0.value.stages[k].disabled
    ensures var f := RunStream(plugins, replies, input).0.value.stages[k];
            exists t: nat, j: nat :: BornAt(plugins, replies, input, k, t, j, f)
              && var s := RunStream(plugins, replies, input[..t]).0.value.stages;
                 var s0 := After(plugins[k], s[k], Batch(plugins, replies, s, input[t], k).value, ForStage(replies, k), j).value;
                 |s0.accepted| <= |f.accepted| && Published(f) == Published(s0) + f.accepted[|s0.accepted|..]
  {
    hide RunStream, After, Batch, Published;
    EveryStageTraced(plugins, replies, input, k);
    var f := RunStream(plugins, replies, input).0.value.stages[k];
    var t: nat, j: nat :| BornAt(plugins, replies, input, k, t, j, f);
  }
}
