/**
 The verified stream pipeline (internal/plugin/stream_enforce.go): every host event passes
 through a chain of plugin stages. A stage keeps what it was handed, what it returned, a
 discipline walker over what it returned, and - while a suppressed tool start is undecided -
 a journal that holds its output back until the decision can be verified or rolled back.

 Plugins are arbitrary: `Replies` fixes, for every stage and call, any reply whatsoever, and
 the verifiers a stage consults are arbitrary functions of the two event buffers.
 */
module StreamPipeline {
  import opened Wrappers
  import opened StreamDiscipline

  const UINT64 := 0x1_0000_0000_0000_0000

  /** What a guest invocation proposes: a trap or invalid result, or a list of events. */
  datatype Reply = Trap | Emit(events: seq<Event>)

  /** The reply of each stage to the n-th event it is handed. */
  type Replies = (nat, nat) -> Reply

  /** A loaded stream plugin and the verifiers that judge it. */
  datatype Plugin = Plugin(
    blocks: bool,
    limit: nat,
    mayReplace: (Event, Event) -> bool,
    prefix: (seq<Event>, seq<Event>) -> bool,
    policy: (seq<Event>, seq<Event>) -> bool,
    cost: Event -> nat)

  datatype Journal = Journal(
    originals: seq<Event>,
    outputs: seq<Event>,
    pending: set<int>,
    walker: State,
    returnedStart: nat,
    bytes: nat)

  datatype Stage = Stage(
    accepted: seq<Event>,
    returned: seq<Event>,
    walker: State,
    journal: Option<Journal>,
    disabled: bool,
    scopeStart: nat)

  const FRESH := Stage([], [], INITIAL, None, false, 0)

  /** A stage and the events it published, or the end of the stream. */
  datatype Outcome = Alive(stage: Stage, published: seq<Event>) | Terminated

  // ----- the transaction for one event -----

  predicate SameArm(a: Event, b: Event) {
    match a
    case NoEvent => b.NoEvent?
    case StreamError(_, _) => b.StreamError?
    case Usage(_) => b.Usage?
    case MessageStart(_, _) => b.MessageStart?
    case MessageStop => b.MessageStop?
    case Start(_) => b.Start?
    case Stop(_) => b.Stop?
    case TextDelta(_) => b.TextDelta?
    case ThinkingDelta(_) => b.ThinkingDelta?
    case SignatureDelta(_) => b.SignatureDelta?
    case ToolCallDelta(_) => b.ToolCallDelta?
  }

  predicate IsToolStart(e: Event) {
    e.Start? && e.start.Some? && e.start.value.block.ToolBlock? && e.start.value.block.call.Some?
  }

  predicate IsClose(e: Event) {
    e.Stop? || e.MessageStop? || e.StreamError?
  }

  predicate IsTerminal(e: Event) {
    e.MessageStop? || e.StreamError?
  }

  predicate HasClose(es: seq<Event>) {
    exists i :: 0 <= i < |es| && IsClose(es[i])
  }

  predicate HasTerminal(es: seq<Event>) {
    exists i :: 0 <= i < |es| && IsTerminal(es[i])
  }

  /** Both verifiers of a finished scope pass on the whole buffers. */
  predicate Verified(p: Plugin, s: Stage) {
    p.prefix(s.accepted, s.returned) && p.policy(s.accepted, s.returned)
  }

  function CostOf(p: Plugin, bytes: nat, es: seq<Event>): nat {
    if es == [] then bytes else (CostOf(p, bytes, es[..|es| - 1]) + p.cost(es[|es| - 1])) % UINT64
  }

  function Receive(p: Plugin, s: Stage, ev: Event): Stage {
    s.(accepted := s.accepted + [ev],
       journal := if s.journal.None? then None
                  else Some(s.journal.value.(originals := s.journal.value.originals + [ev],
                                             bytes := (s.journal.value.bytes + p.cost(ev)) % UINT64)))
  }

  /** The walker after a reply the host accepts; None for a trap, a refused edit or a refused event. */
  function Judge(p: Plugin, s: Stage, ev: Event, reply: Reply): Option<State> {
    if reply.Trap? then None
    else if |reply.events| == 1 && SameArm(ev, reply.events[0]) && !p.mayReplace(ev, reply.events[0]) then None
    else Run(s.walker, reply.events)
  }

  /** Suppressing a tool start opens the journal and makes the tool's index pending. */
  function Defer(p: Plugin, s: Stage, ev: Event, es: seq<Event>): Stage {
    if es == [] && IsToolStart(ev) then
      var j := if s.journal.Some? then s.journal.value
               else Journal([ev], [], {}, s.walker, |s.returned|, p.cost(ev) % UINT64);
      s.(journal := Some(j.(pending := j.pending + {ev.start.value.index})))
    else s
  }

  function Charge(p: Plugin, s: Stage, es: seq<Event>): Stage {
    if s.journal.None? then s
    else s.(journal := Some(s.journal.value.(bytes := CostOf(p, s.journal.value.bytes, es))))
  }

  predicate OverLimit(p: Plugin, s: Stage) {
    s.journal.Some? && s.journal.value.bytes > p.limit
  }

  function StillPending(pending: set<int>, ev: Event): set<int> {
    if ev.StreamError? then {}
    else if ev.Stop? && ev.index.Some? then pending - {ev.index.value}
    else pending
  }

  function Commit(s: Stage, ev: Event, es: seq<Event>): Outcome {
    var s := s.(returned := s.returned + es);
    if s.journal.Some? then
      var j := s.journal.value;
      Alive(s.(journal := Some(j.(outputs := j.outputs + es, pending := StillPending(j.pending, ev)))), [])
    else Alive(s, es)
  }

  /** Replays the journal's original events in place of everything returned since it opened. */
  function Rollback(p: Plugin, s: Stage): Option<Stage>
    requires s.journal.Some?
  {
    var j := s.journal.value;
    var replay := Run(j.walker, j.originals);
    if replay.None? || j.returnedStart > |s.returned| then None
    else
      var r := s.(walker := replay.value, returned := s.returned[..j.returnedStart] + j.originals,
                  journal := None, disabled := true);
      if Verified(p, r) then Some(r) else None
  }

  /** A failed call: a blocking plugin ends the stream, any other is replaced by what it was handed. */
  function Recover(p: Plugin, s: Stage, ev: Event): Outcome {
    if p.blocks then Terminated
    else if s.journal.Some? then
      var r := Rollback(p, s);
      if r.None? then Terminated else Alive(r.value, s.journal.value.originals)
    else
      var w := Run(s.walker, [ev]);
      if w.None? then Terminated else Alive(s.(walker := w.value, returned := s.returned + [ev]), [ev])
  }

  /** One event through one stage. */
  function Feed(p: Plugin, s: Stage, ev: Event, reply: Reply): Outcome {
    var reply := if s.disabled then Emit([ev]) else reply;
    var s := Receive(p, s, ev);
    var w := Judge(p, s, ev, reply);
    if w.None? then Recover(p, s, ev)
    else
      var s := Charge(p, Defer(p, s.(walker := w.value), ev, reply.events), reply.events);
      if OverLimit(p, s) then Recover(p, s, ev) else Commit(s, ev, reply.events)
  }

  function FeedAll(p: Plugin, s: Stage, evs: seq<Event>, replies: nat -> Reply): Outcome
    decreases |evs|
  {
    if evs == [] then Alive(s, [])
    else
      var before := FeedAll(p, s, evs[..|evs| - 1], replies);
      if before.Terminated? then Terminated
      else
        var next := Feed(p, before.stage, evs[|evs| - 1], replies(|before.stage.accepted|));
        if next.Terminated? then Terminated else Alive(next.stage, before.published + next.published)
  }

  // ----- the scope check at the end of a batch -----

  function Since(es: seq<Event>, n: nat): seq<Event> {
    if n <= |es| then es[n..] else []
  }

  /** No deferred decision stands in the way of verifying. */
  predicate Resolved(s: Stage) {
    s.journal.None? || s.journal.value.pending == {}
  }

  function Release(s: Stage, published: seq<Event>): Outcome {
    if s.journal.Some? && s.journal.value.pending == {}
    then Alive(s.(journal := None), published + s.journal.value.outputs)
    else Alive(s, published)
  }

  /** A finished scope on either side is verified before anything more is released. */
  function Settle(p: Plugin, begin: Stage, s: Stage, published: seq<Event>): Outcome {
    var handed, produced := Since(s.accepted, |begin.accepted|), Since(s.returned, |begin.returned|);
    if !(HasClose(handed) || HasClose(produced)) || !Resolved(s) then Release(s, published)
    else if (HasTerminal(handed) || HasTerminal(produced) ==> Complete(s.walker)) && Verified(p, s) then
      Release(s.(scopeStart := |s.accepted|), published)
    else if s.journal.Some? && !p.blocks then
      var r := Rollback(p, s);
      if r.None? then Terminated
      else Alive(r.value.(scopeStart := |s.accepted|), published + s.journal.value.originals)
    else Terminated
  }

  function RunBatch(p: Plugin, s: Stage, evs: seq<Event>, replies: nat -> Reply): Outcome {
    var fed := FeedAll(p, s, evs, replies);
    if fed.Terminated? then Terminated else Settle(p, s, fed.stage, fed.published)
  }

  // ----- what a stage always satisfies -----

  /** Everything the stage has handed on so far. */
  function Published(s: Stage): seq<Event> {
    if s.journal.Some? && s.journal.value.returnedStart <= |s.returned|
    then s.returned[..s.journal.value.returnedStart] else s.returned
  }

  /** The last `n` events handed to the stage. */
  predicate IsTail(tail: seq<Event>, es: seq<Event>) {
    |tail| <= |es| && es[|es| - |tail|..] == tail
  }

  /** The transaction: what was returned since it opened is held, what was handed in is kept. */
  ghost predicate JournalCore(s: Stage, j: Journal) {
    && j.returnedStart <= |s.returned|
    && s.returned == s.returned[..j.returnedStart] + j.outputs
    && Run(INITIAL, s.returned[..j.returnedStart]) == Some(j.walker)
    && j.originals != []
    && IsTail(j.originals, s.accepted)
  }

  /** Every pending index names a tool block still open in the stage's input. */
  ghost predicate PendingOpen(input: State, pending: set<int>) {
    pending <= input.openTools.Keys && (input.sawError ==> pending == {})
  }

  ghost predicate StageInv(p: Plugin, s: Stage) {
    && Run(INITIAL, s.accepted).Some?
    && Run(INITIAL, s.returned) == Some(s.walker)
    && (s.journal.Some? ==>
          && JournalCore(s, s.journal.value)
          && PendingOpen(Run(INITIAL, s.accepted).value, s.journal.value.pending)
          && !s.disabled)
    && (s.disabled ==> !p.blocks)
    && s.scopeStart <= |s.accepted|
    && (s.scopeStart == |s.accepted| ==> (s.accepted == [] && s.returned == []) || Verified(p, s))
  }

  /** Between batches a journal is open only while some deferred tool is undecided. */
  ghost predicate AtRest(s: Stage) {
    s.journal.Some? ==> s.journal.value.pending != {}
  }

  lemma ReceiveInput(p: Plugin, s: Stage, ev: Event)
    requires StageInv(p, s) && Run(INITIAL, s.accepted + [ev]).Some?
    ensures var before, after := Run(INITIAL, s.accepted).value, Run(INITIAL, s.accepted + [ev]).value;
            && (after, true) == Step(before, ev)
            && !before.sawError
            && forall x :: x in before.openTools && !StopsAt(ev, x) ==> x in after.openTools
  {
    assert (s.accepted + [ev])[..|s.accepted|] == s.accepted;
  }

  lemma RollbackKeeps(p: Plugin, s: Stage)
    requires Run(INITIAL, s.accepted).Some? && s.journal.Some? && JournalCore(s, s.journal.value)
    requires !p.blocks && s.scopeStart <= |s.accepted|
    requires Rollback(p, s).Some?
    ensures StageInv(p, Rollback(p, s).value)
    ensures Published(Rollback(p, s).value) == Published(s) + s.journal.value.originals
  {
    var j := s.journal.value;
    RunAppend(INITIAL, s.returned[..j.returnedStart], j.originals);
  }

  lemma RecoverKeeps(p: Plugin, s: Stage, ev: Event)
    requires Run(INITIAL, s.accepted).Some? && s.scopeStart < |s.accepted|
    requires s.disabled ==> !p.blocks
    requires s.journal.Some? ==> JournalCore(s, s.journal.value)
    requires s.journal.None? ==> Run(INITIAL, s.returned) == Some(s.walker)
    ensures var o := Recover(p, s, ev);
            o.Alive? ==>
              && StageInv(p, o.stage)
              && o.stage.accepted == s.accepted
              && o.stage.scopeStart == s.scopeStart
              && Published(o.stage) == Published(s) + o.published
  {
    if p.blocks {
    } else if s.journal.Some? {
      if Rollback(p, s).Some? { RollbackKeeps(p, s); }
    } else {
      RunAppend(INITIAL, s.returned, [ev]);
    }
  }

  lemma ReceiveKeeps(p: Plugin, s: Stage, ev: Event)
    requires StageInv(p, s)
    ensures var r := Receive(p, s, ev);
            && r == s.(accepted := s.accepted + [ev], journal := r.journal)
            && r.journal.Some? == s.journal.Some?
            && (r.journal.Some? ==> r.journal.value.pending == s.journal.value.pending)
            && Published(r) == Published(s)
            && (r.journal.Some? ==> JournalCore(r, r.journal.value))
  {
    var r := Receive(p, s, ev);
    if r.journal.Some? {
      var tail, all := s.journal.value.originals, s.accepted + [ev];
      assert all[|all| - |tail + [ev]|..] == s.accepted[|s.accepted| - |tail|..] + [ev];
    }
  }

  function PendingWith(s: Stage, ev: Event): set<int> {
    (if s.journal.Some? then s.journal.value.pending else {})
    + (if IsToolStart(ev) then {ev.start.value.index} else {})
  }

  lemma PendingStaysOpen(before: State, ev: Event, s: Stage, pending: set<int>)
    requires Step(before, ev).1
    requires s.journal.Some? ==> PendingOpen(before, s.journal.value.pending)
    requires pending <= PendingWith(s, ev)
    ensures PendingOpen(Step(before, ev).0, StillPending(pending, ev))
  {
  }

  lemma DeferKeeps(p: Plugin, s: Stage, ev: Event, es: seq<Event>)
    requires s.accepted != [] && s.accepted[|s.accepted| - 1] == ev
    requires s.journal.Some? ==> JournalCore(s, s.journal.value)
    requires es == [] ==> Run(INITIAL, s.returned) == Some(s.walker)
    ensures var r := Charge(p, Defer(p, s, ev, es), es);
            && r == s.(journal := r.journal)
            && (r.journal.Some? && s.journal.None? ==> es == [])
            && Published(r) == Published(s)
            && (r.journal.Some? ==> JournalCore(r, r.journal.value))
            && (r.journal.Some? ==> r.journal.value.pending <= PendingWith(s, ev))
  {
    assert s.returned[..|s.returned|] == s.returned;
  }

  lemma CommitKeeps(s: Stage, ev: Event, es: seq<Event>)
    requires s.journal.Some? ==> JournalCore(s, s.journal.value)
    ensures var o := Commit(s, ev, es);
            && o.stage == s.(returned := s.returned + es, journal := o.stage.journal)
            && o.stage.journal.Some? == s.journal.Some?
            && (s.journal.Some? ==> o.stage.journal.value.pending == StillPending(s.journal.value.pending, ev))
            && Published(o.stage) == Published(s) + o.published
            && (o.stage.journal.Some? ==> JournalCore(o.stage, o.stage.journal.value))
  {
    if s.journal.Some? {
      var n := s.journal.value.returnedStart;
      assert (s.returned + es)[..n] == s.returned[..n];
    }
  }

  /** What every surviving step does: the invariant is kept and the published stream only grows. */
  ghost predicate Keeps(p: Plugin, s: Stage, evs: seq<Event>, o: Outcome) {
    o.Alive? ==>
      && StageInv(p, o.stage)
      && o.stage.accepted == s.accepted + evs
      && o.stage.scopeStart == s.scopeStart
      && Published(o.stage) == Published(s) + o.published
  }

  /** An over-limit journal is rolled back like any other failure. */
  lemma OverLimitKeeps(p: Plugin, s: Stage, ev: Event, es: seq<Event>, w: State)
    requires StageInv(p, s) && Run(INITIAL, s.accepted + [ev]).Some?
    requires Run(s.walker, es) == Some(w)
    ensures var r := Charge(p, Defer(p, Receive(p, s, ev).(walker := w), ev, es), es);
            OverLimit(p, r) ==> Keeps(p, s, [ev], Recover(p, r, ev))
  {
    hide Step;
    var s2 := Receive(p, s, ev).(walker := w);
    ReceiveKeeps(p, s, ev);
    DeferKeeps(p, s2, ev, es);
    var r := Charge(p, Defer(p, s2, ev, es), es);
    if OverLimit(p, r) { RecoverKeeps(p, r, ev); }
  }

  lemma AcceptedKeeps(p: Plugin, s: Stage, ev: Event, es: seq<Event>, w: State)
    requires StageInv(p, s) && Run(INITIAL, s.accepted + [ev]).Some?
    requires Run(s.walker, es) == Some(w)
    requires s.disabled ==> es == [ev]
    ensures var r := Charge(p, Defer(p, Receive(p, s, ev).(walker := w), ev, es), es);
            Keeps(p, s, [ev], Commit(r, ev, es))
  {
    hide Step, Run, Receive, Charge, Defer, Commit;
    var s2 := Receive(p, s, ev).(walker := w);
    var before := Run(INITIAL, s.accepted).value;
    ReceiveInput(p, s, ev);
    ReceiveKeeps(p, s, ev);
    if es == [] { RunNil(s.walker); }
    DeferKeeps(p, s2, ev, es);
    RunAppend(INITIAL, s.returned, es);
    var r := Charge(p, Defer(p, s2, ev, es), es);
    CommitKeeps(r, ev, es);
    if r.journal.Some? { PendingStaysOpen(before, ev, s, r.journal.value.pending); }
  }

  /** One event keeps the stage invariant, and the published stream only grows. */
  lemma FeedKeeps(p: Plugin, s: Stage, ev: Event, reply: Reply)
    requires StageInv(p, s) && Run(INITIAL, s.accepted + [ev]).Some?
    ensures Keeps(p, s, [ev], Feed(p, s, ev, reply))
  {
    hide Step, Recover, Commit, Charge, Defer;
    var reply := if s.disabled then Emit([ev]) else reply;
    var s1 := Receive(p, s, ev);
    var w := Judge(p, s1, ev, reply);
    if w.None? {
      ReceiveKeeps(p, s, ev);
      RecoverKeeps(p, s1, ev);
    } else {
      OverLimitKeeps(p, s, ev, reply.events, w.value);
      AcceptedKeeps(p, s, ev, reply.events, w.value);
    }
  }

  lemma {:induction false} FeedAllKeeps(p: Plugin, s: Stage, evs: seq<Event>, replies: nat -> Reply)
    requires StageInv(p, s) && Run(INITIAL, s.accepted + evs).Some?
    ensures Keeps(p, s, evs, FeedAll(p, s, evs, replies))
    decreases |evs|
  {
    hide Step, Feed, StageInv, Run, Published;
    if evs == [] {
      assert s.accepted + evs == s.accepted;
      assert Published(s) + [] == Published(s);
    } else {
      var init, ev := evs[..|evs| - 1], evs[|evs| - 1];
      assert s.accepted + evs == (s.accepted + init) + [ev];
      RunAppend(INITIAL, s.accepted + init, [ev]);
      FeedAllKeeps(p, s, init, replies);
      var before := FeedAll(p, s, init, replies);
      if before.Alive? {
        FeedKeeps(p, before.stage, ev, replies(|before.stage.accepted|));
      }
    }
  }

  /** Releasing a resolved journal publishes exactly what was held. */
  lemma ReleaseKeeps(p: Plugin, s: Stage, published: seq<Event>)
    requires StageInv(p, s)
    ensures var o := Release(s, published);
            && StageInv(p, o.stage) && AtRest(o.stage)
            && o.stage.accepted == s.accepted
            && (forall base :: Published(s) == base + published ==> Published(o.stage) == base + o.published)
  {
    hide Step, Run;
    if s.journal.Some? && s.journal.value.pending == {} {
      var j := s.journal.value;
      forall base | Published(s) == base + published
        ensures s.returned == base + (published + j.outputs)
      {
        assert base + (published + j.outputs) == (base + published) + j.outputs;
      }
    }
  }

  /**
   A batch that closed a scope on either side, in what the stage was handed or in what it
   returned, and left no undecided journal was verified over the whole buffers: no held output
   is released, and no closed scope is passed on, unverified.
   */
  ghost predicate ClosedScopesVerified(p: Plugin, before: Stage, after: Stage) {
    && (HasClose(Since(after.accepted, |before.accepted|)) || HasClose(Since(after.returned, |before.returned|)))
    && after.journal.None?
    ==> Verified(p, after) && after.scopeStart == |after.accepted|
  }

  /** What holds of a stage that survives the end of a batch. */
  ghost predicate SettledWell(p: Plugin, begin: Stage, s: Stage, o: Outcome) {
    o.Alive? ==>
      && StageInv(p, o.stage) && AtRest(o.stage)
      && o.stage.accepted == s.accepted
      && Published(o.stage) == Published(begin) + o.published
      && ClosedScopesVerified(p, begin, o.stage)
  }

  /** Nothing closed, or a deferred tool still undecided: the scope stays as it is. */
  lemma SettleWaits(p: Plugin, begin: Stage, s: Stage, published: seq<Event>)
    requires StageInv(p, s) && Published(s) == Published(begin) + published
    requires var handed, produced := Since(s.accepted, |begin.accepted|), Since(s.returned, |begin.returned|);
             !(HasClose(handed) || HasClose(produced)) || !Resolved(s)
    ensures SettledWell(p, begin, s, Release(s, published))
  {
    hide Step, Run, HasClose, HasTerminal, Since, StageInv, Published;
    ReleaseKeeps(p, s, published);
  }

  lemma SettleVerifies(p: Plugin, begin: Stage, s: Stage, published: seq<Event>)
    requires StageInv(p, s) && Published(s) == Published(begin) + published && Verified(p, s)
    ensures SettledWell(p, begin, s, Release(s.(scopeStart := |s.accepted|), published))
  {
    hide Step, Run, HasClose, HasTerminal, Since;
    ReleaseKeeps(p, s.(scopeStart := |s.accepted|), published);
  }

  lemma SettleRollsBack(p: Plugin, begin: Stage, s: Stage, published: seq<Event>)
    requires StageInv(p, s) && Published(s) == Published(begin) + published
    requires s.journal.Some? && !p.blocks && Rollback(p, s).Some?
    ensures SettledWell(p, begin, s, Alive(Rollback(p, s).value.(scopeStart := |s.accepted|), published + s.journal.value.originals))
  {
    hide Step, Run, HasClose, HasTerminal, Since;
    RollbackKeeps(p, s);
    assert Published(begin) + (published + s.journal.value.originals) == Published(s) + s.journal.value.originals;
  }

  lemma SettleKeeps(p: Plugin, begin: Stage, s: Stage, published: seq<Event>)
    requires StageInv(p, s) && Published(s) == Published(begin) + published
    ensures SettledWell(p, begin, s, Settle(p, begin, s, published))
  {
    hide Step, Run, HasClose, HasTerminal, Since, StageInv, Published, Release, Rollback, Verified, Resolved, Complete, ClosedScopesVerified;
    var handed, produced := Since(s.accepted, |begin.accepted|), Since(s.returned, |begin.returned|);
    if !(HasClose(handed) || HasClose(produced)) || !Resolved(s) {
      SettleWaits(p, begin, s, published);
    } else if (HasTerminal(handed) || HasTerminal(produced) ==> Complete(s.walker)) && Verified(p, s) {
      SettleVerifies(p, begin, s, published);
    } else if s.journal.Some? && !p.blocks && Rollback(p, s).Some? {
      SettleRollsBack(p, begin, s, published);
    }
  }

  /** Everything a surviving batch guarantees, for any plugin and any replies. */
  lemma BatchKeeps(p: Plugin, s: Stage, evs: seq<Event>, replies: nat -> Reply)
    requires StageInv(p, s) && Run(INITIAL, s.accepted + evs).Some?
    ensures var o := RunBatch(p, s, evs, replies);
            o.Alive? ==>
              && StageInv(p, o.stage) && AtRest(o.stage)
              && o.stage.accepted == s.accepted + evs
              && Published(o.stage) == Published(s) + o.published
              && ClosedScopesVerified(p, s, o.stage)
  {
    hide Step, Run, FeedAll, Settle, Published, StageInv;
    FeedAllKeeps(p, s, evs, replies);
    var fed := FeedAll(p, s, evs, replies);
    if fed.Alive? { SettleKeeps(p, s, fed.stage, fed.published); }
  }

  /** What is published is always an accepted trace. */
  lemma PublishedAccepted(p: Plugin, s: Stage)
    requires StageInv(p, s)
    ensures Accepts(Published(s))
  {
    hide Step;
    RunPrefix(INITIAL, s.returned, |Published(s)|);
  }

  /** Nothing is held once the input has ended: after a MessageStop or a StreamError no journal remains. */
  lemma NothingHeldAfterEnd(p: Plugin, s: Stage)
    requires StageInv(p, s) && AtRest(s)
    requires HasTerminal(s.accepted) || Complete(Run(INITIAL, s.accepted).value)
    ensures s.journal.None? && Published(s) == s.returned
  {
    WalkerAcceptsExactlyLegal(s.accepted);
    if HasTerminal(s.accepted) {
      EndedIsComplete(s.accepted);
    }
  }

  /** An accepted trace that reached a MessageStop or a StreamError leaves nothing open. */
  lemma EndedIsComplete(es: seq<Event>)
    requires Accepts(es) && HasTerminal(es)
    ensures Complete(Run(INITIAL, es).value)
  {
    WalkerAcceptsExactlyLegal(es);
    var i :| 0 <= i < |es| && IsTerminal(es[i]);
    assert es[i].StreamError? || es[i].MessageStop?;
  }

  // ----- the transaction laws of the journal -----

  /** The number of events handed to the stage before its journal opened. */
  function Mark(s: Stage): nat
    requires s.journal.Some? && |s.journal.value.originals| <= |s.accepted|
  {
    |s.accepted| - |s.journal.value.originals|
  }

  /**
   A rollback leaves exactly what was published before the journal opened, followed by every
   event handed to the stage since, in order; and the guest is not called again.
   */
  lemma RollbackRestores(p: Plugin, s: Stage)
    requires s.journal.Some? && JournalCore(s, s.journal.value) && Rollback(p, s).Some?
    ensures var r := Rollback(p, s).value;
            && r.disabled && r.journal.None? && r.accepted == s.accepted
            && Published(r) == Published(s) + s.accepted[Mark(s)..]
            && Verified(p, r)
  {
    hide Step, Run;
  }

  lemma RecoverRestores(p: Plugin, s: Stage, ev: Event)
    requires s.journal.Some? && JournalCore(s, s.journal.value)
    ensures var o := Recover(p, s, ev);
            o.Alive? ==> o.stage.disabled && o.stage.journal.None? && o.stage.accepted == s.accepted
                         && Published(o.stage) == Published(s) + s.accepted[Mark(s)..]
  {
    hide Step, Run, Published, JournalCore;
    if !p.blocks && Rollback(p, s).Some? { RollbackRestores(p, s); }
  }

  lemma NotYetDisabled(p: Plugin, s: Stage)
    requires StageInv(p, s) && s.journal.Some?
    ensures !s.disabled && |s.journal.value.originals| <= |s.accepted|
  {
  }

  /** Receiving an event leaves the place where the journal opened. */
  lemma ReceivedMark(p: Plugin, s: Stage, ev: Event)
    requires s.journal.Some? && |s.journal.value.originals| <= |s.accepted|
    ensures var r := Receive(p, s, ev);
            && r.journal.Some? && |r.journal.value.originals| <= |r.accepted|
            && Mark(r) == Mark(s) && r.accepted == s.accepted + [ev] && r.disabled == s.disabled
  {
  }

  lemma JudgedEvents(p: Plugin, s: Stage, ev: Event, reply: Reply)
    requires Judge(p, s, ev, reply).Some?
    ensures reply.Emit?
  {
  }

  /** Deferring a tool and counting its bytes leave an open journal's place and what is published. */
  lemma ChargeHolds(p: Plugin, s: Stage, w: State, ev: Event, es: seq<Event>)
    requires s.journal.Some? && JournalCore(s, s.journal.value) && |s.journal.value.originals| <= |s.accepted|
    ensures var t := Charge(p, Defer(p, s.(walker := w), ev, es), es);
            && t.journal.Some? && JournalCore(t, t.journal.value) && |t.journal.value.originals| <= |t.accepted|
            && t.accepted == s.accepted && Mark(t) == Mark(s) && Published(t) == Published(s) && t.disabled == s.disabled
  {
    hide Step, Run, CostOf;
  }

  lemma CommitHolds(s: Stage, ev: Event, es: seq<Event>)
    requires s.journal.Some? && JournalCore(s, s.journal.value) && |s.journal.value.originals| <= |s.accepted|
    ensures var o := Commit(s, ev, es);
            && o.Alive? && o.stage.disabled == s.disabled
            && o.stage.journal.Some? && |o.stage.journal.value.originals| <= |o.stage.accepted|
            && Mark(o.stage) == Mark(s) && Published(o.stage) == Published(s)
  {
    hide Step, Run;
  }

  /**
   Whatever the reply of a stage with an open journal, a trap, an edit or a walk the host refuses,
   or output over the byte limit, the stage goes on holding the same transaction or is rolled back
   to the events it was handed, the last one included.
   */
  lemma FailureRestores(p: Plugin, s: Stage, ev: Event, reply: Reply)
    requires StageInv(p, s) && s.journal.Some? && Run(INITIAL, s.accepted + [ev]).Some?
    ensures var o := Feed(p, s, ev, reply);
            o.Alive? ==>
              if o.stage.disabled then o.stage.journal.None? && Published(o.stage) == Published(s) + (s.accepted + [ev])[Mark(s)..]
              else o.stage.journal.Some? && Published(o.stage) == Published(s) && |o.stage.journal.value.originals| <= |o.stage.accepted|
                   && Mark(o.stage) == Mark(s)
  {
    hide Step, Run, StageInv, Published, JournalCore, Recover, Defer, Charge, Judge;
    var s1 := Receive(p, s, ev);
    ReceiveKeeps(p, s, ev);
    NotYetDisabled(p, s);
    ReceivedMark(p, s, ev);
    var w := Judge(p, s1, ev, reply);
    if w.None? {
      RecoverRestores(p, s1, ev);
    } else {
      JudgedEvents(p, s1, ev, reply);
      var s2 := Charge(p, Defer(p, s1.(walker := w.value), ev, reply.events), reply.events);
      ChargeHolds(p, s1, w.value, ev, reply.events);
      if OverLimit(p, s2) {
        RecoverRestores(p, s2, ev);
      } else {
        CommitHolds(s2, ev, reply.events);
      }
    }
  }

  /** A rolled-back stage forwards every further event unchanged until the stream ends. */
  lemma DisabledForwards(p: Plugin, s: Stage, ev: Event, reply: Reply)
    requires StageInv(p, s) && s.disabled
    ensures var o := Feed(p, s, ev, reply);
            o.Alive? ==>
              && o.stage.disabled && o.stage.journal.None?
              && o.stage.accepted == s.accepted + [ev]
              && o.stage.returned == s.returned + [ev]
              && o.published == [ev]
  {
    hide Step, Run;
  }

  lemma {:induction false} DisabledFeedsAll(p: Plugin, s: Stage, evs: seq<Event>, replies: nat -> Reply)
    requires StageInv(p, s) && s.disabled && Run(INITIAL, s.accepted + evs).Some?
    ensures var o := FeedAll(p, s, evs, replies);
            o.Alive? ==> o.stage.disabled && o.stage.journal.None? && o.published == evs
    decreases |evs|
  {
    hide Step, Feed;
    if evs != [] {
      var init, ev := evs[..|evs| - 1], evs[|evs| - 1];
      assert s.accepted + evs == (s.accepted + init) + [ev];
      RunAppend(INITIAL, s.accepted + init, [ev]);
      FeedAllKeeps(p, s, init, replies);
      DisabledFeedsAll(p, s, init, replies);
      var before := FeedAll(p, s, init, replies);
      if before.Alive? {
        DisabledForwards(p, before.stage, ev, replies(|before.stage.accepted|));
      }
    }
  }

  /** A disabled stage is the identity on a batch. */
  lemma {:induction false} DisabledIsIdentity(p: Plugin, s: Stage, evs: seq<Event>, replies: nat -> Reply)
    requires StageInv(p, s) && s.disabled && Run(INITIAL, s.accepted + evs).Some?
    ensures var o := RunBatch(p, s, evs, replies);
            o.Alive? ==> o.stage.disabled && o.published == evs
  {
    hide Step, Run, FeedAll;
    FeedAllKeeps(p, s, evs, replies);
    DisabledFeedsAll(p, s, evs, replies);
  }

  // ----- the chain of stages -----

  /** The per-request verifier state: the host walker and one stage per stream plugin. */
  datatype Verifier = Verifier(host: State, stages: seq<Stage>)

  function Start0(plugins: seq<Plugin>): Verifier {
    Verifier(INITIAL, seq(|plugins|, i => FRESH))
  }

  function ForStage(replies: Replies, k: nat): nat -> Reply {
    (n: nat) => replies(k, n)
  }

  /** The events leaving stage `k - 1` and the stages after it ran, or None when a stage terminated. */
  function Through(plugins: seq<Plugin>, replies: Replies, stages: seq<Stage>, evs: seq<Event>, k: nat)
    : (r: Option<(seq<Stage>, seq<Event>)>)
    requires k <= |plugins| == |stages|
    ensures r.Some? ==> |r.value.0| == |stages| && r.value.0[k..] == stages[k..]
  {
    if k == 0 then Some((stages, evs))
    else
      var before := Through(plugins, replies, stages, evs, k - 1);
      if before.None? then None
      else
        var o := RunBatch(plugins[k - 1], before.value.0[k - 1], before.value.1, ForStage(replies, k - 1));
        if o.Terminated? then None else Some((before.value.0[k - 1 := o.stage], o.published))
  }

  /** One host event through the whole chain; with no stream plugin nothing is enforced and the event passes unread. */
  function Chunk(plugins: seq<Plugin>, replies: Replies, v: Verifier, ev: Event): (r: Option<(Verifier, seq<Event>)>)
    requires |v.stages| == |plugins|
    ensures r.Some? ==> |r.value.0.stages| == |plugins|
  {
    var (host, ok) := Step(v.host, ev);
    if plugins == [] then Some((v, [ev]))
    else if !ok then None
    else
      var out := Through(plugins, replies, v.stages, [ev], |plugins|);
      if out.None? then None else Some((Verifier(host, out.value.0), out.value.1))
  }

  /** A whole stream: the state unless it terminated, and everything that left the last stage. */
  function RunStream(plugins: seq<Plugin>, replies: Replies, input: seq<Event>): (r: (Option<Verifier>, seq<Event>))
    ensures r.0.Some? ==> |r.0.value.stages| == |plugins|
    decreases |input|
  {
    if input == [] then (Some(Start0(plugins)), [])
    else
      var (v, out) := RunStream(plugins, replies, input[..|input| - 1]);
      if v.None? then (None, out)
      else
        var c := Chunk(plugins, replies, v.value, input[|input| - 1]);
        if c.None? then (None, out) else (Some(c.value.0), out + c.value.1)
  }

  /** What stage `k` has been handed: the host's events, or what the stage before it published. */
  function Handed(stages: seq<Stage>, input: seq<Event>, k: nat): seq<Event>
    requires k <= |stages|
  {
    if k == 0 then input else Published(stages[k - 1])
  }

  /** Every stage satisfies its invariant and reads exactly what the stage before it published. */
  ghost predicate ChainInv(plugins: seq<Plugin>, v: Verifier, input: seq<Event>) {
    && |v.stages| == |plugins|
    && Run(INITIAL, input) == Some(v.host)
    && forall k :: 0 <= k < |plugins| ==>
         && StageInv(plugins[k], v.stages[k]) && AtRest(v.stages[k])
         && v.stages[k].accepted == Handed(v.stages, input, k)
  }

  /** Stages before `k` have consumed this chunk, stages from `k` on have not. */
  ghost predicate PartWay(plugins: seq<Plugin>, prior: seq<Stage>, stages: seq<Stage>, input: seq<Event>,
                          ev: Event, evs: seq<Event>, k: nat)
  {
    && k <= |plugins| == |stages| == |prior|
    && (forall i :: 0 <= i < k ==>
         && StageInv(plugins[i], stages[i]) && AtRest(stages[i])
         && stages[i].accepted == Handed(stages, input + [ev], i))
    && stages[k..] == prior[k..]
    && Handed(stages, input + [ev], k) == Handed(prior, input, k) + evs
  }

  lemma HandedAccepted(plugins: seq<Plugin>, stages: seq<Stage>, input: seq<Event>, k: nat)
    requires k <= |plugins| == |stages|
    requires Accepts(input)
    requires k > 0 ==> StageInv(plugins[k - 1], stages[k - 1])
    ensures Accepts(Handed(stages, input, k))
  {
    hide Step, Run;
    if k > 0 { PublishedAccepted(plugins[k - 1], stages[k - 1]); }
  }

  lemma PartWayNext(plugins: seq<Plugin>, v: Verifier, stages: seq<Stage>, input: seq<Event>, ev: Event,
                    evs: seq<Event>, i: nat, replies: nat -> Reply)
    requires ChainInv(plugins, v, input) && Accepts(input + [ev]) && i < |plugins|
    requires PartWay(plugins, v.stages, stages, input, ev, evs, i)
    ensures var o := RunBatch(plugins[i], stages[i], evs, replies);
            o.Alive? ==> PartWay(plugins, v.stages, stages[i := o.stage], input, ev, o.published, i + 1)
  {
    hide Step, Run, RunBatch, StageInv, AtRest, Published;
    assert stages[i] == stages[i..][0] == v.stages[i..][0] == v.stages[i];
    HandedAccepted(plugins, stages, input + [ev], i);
    BatchKeeps(plugins[i], stages[i], evs, replies);
    var o := RunBatch(plugins[i], stages[i], evs, replies);
    if o.Alive? {
      var after := stages[i := o.stage];
      assert after[i + 1..] == stages[i..][1..] == v.stages[i..][1..] == v.stages[i + 1..];
      forall j | 0 <= j <= i
        ensures Handed(after, input + [ev], j) == Handed(stages, input + [ev], j)
      {
        if j > 0 { assert after[j - 1] == stages[j - 1]; }
      }
    }
  }

  lemma PartWayZero(plugins: seq<Plugin>, v: Verifier, input: seq<Event>, ev: Event)
    requires |v.stages| == |plugins|
    ensures PartWay(plugins, v.stages, v.stages, input, ev, [ev], 0)
  {
  }

  lemma {:induction false} ThroughKeeps(plugins: seq<Plugin>, replies: Replies, v: Verifier, input: seq<Event>, ev: Event, k: nat)
    requires k <= |plugins| == |v.stages| && ChainInv(plugins, v, input)
    requires Accepts(input + [ev])
    ensures var t := Through(plugins, replies, v.stages, [ev], k);
            t.Some? ==> PartWay(plugins, v.stages, t.value.0, input, ev, t.value.1, k)
  {
    hide RunBatch, ChainInv, Accepts, PartWay;
    if k == 0 {
      PartWayZero(plugins, v, input, ev);
    } else {
      ThroughKeeps(plugins, replies, v, input, ev, k - 1);
      var t := Through(plugins, replies, v.stages, [ev], k - 1);
      if t.Some? {
        PartWayNext(plugins, v, t.value.0, input, ev, t.value.1, k - 1, ForStage(replies, k - 1));
      }
    }
  }

  lemma ChunkKeeps(plugins: seq<Plugin>, replies: Replies, v: Verifier, input: seq<Event>, ev: Event)
    requires plugins != [] && ChainInv(plugins, v, input)
    ensures var c := Chunk(plugins, replies, v, ev);
            c.Some? ==>
              && ChainInv(plugins, c.value.0, input + [ev])
              && Handed(c.value.0.stages, input + [ev], |plugins|) == Handed(v.stages, input, |plugins|) + c.value.1
  {
    hide Step, StageInv, AtRest, Through, Published;
    RunAppend(INITIAL, input, [ev]);
    RunOne(v.host, ev);
    if Step(v.host, ev).1 { ThroughKeeps(plugins, replies, v, input, ev, |plugins|); }
  }

  /**
   Safety of every run. For any stream plugins, any replies and any input: what has left the last
   stage is an accepted trace of the discipline, even if the stream terminated; and while it has
   not, every stage invariant holds, each stage has been handed exactly what the one before it
   published, and the output is what the last one published. With no stream plugin there is
   nothing to enforce: the output is the input, legal exactly when the input is.
   */
  lemma {:induction false} EveryRunIsSafe(plugins: seq<Plugin>, replies: Replies, input: seq<Event>)
    ensures var (v, out) := RunStream(plugins, replies, input);
            if plugins == [] then v == Some(Start0([])) && out == input
            else
              && Legal(out)
              && (v.Some? ==> ChainInv(plugins, v.value, input) && out == Handed(v.value.stages, input, |plugins|))
    decreases |input|
  {
    hide Step, StageInv, AtRest, Chunk, Published;
    if plugins == [] {
      PassThrough(replies, input);
    } else {
      WalkerAcceptsExactlyLegal(RunStream(plugins, replies, input).1);
      if input == [] {
        FreshStages(plugins);
      } else {
        var init, ev := input[..|input| - 1], input[|input| - 1];
        EveryRunIsSafe(plugins, replies, init);
        var (v, out) := RunStream(plugins, replies, init);
        WalkerAcceptsExactlyLegal(out);
        assert init + [ev] == input;
        if v.Some? {
          ChunkKeeps(plugins, replies, v.value, init, ev);
          var c := Chunk(plugins, replies, v.value, ev);
          if c.Some? { HandedAccepted(plugins, c.value.0.stages, input, |plugins|); }
        }
      }
    }
  }

  lemma {:induction false} PassThrough(replies: Replies, input: seq<Event>)
    ensures RunStream([], replies, input) == (Some(Start0([])), input)
    decreases |input|
  {
    hide Step, Through;
    if input != [] {
      PassThrough(replies, input[..|input| - 1]);
      assert input == input[..|input| - 1] + [input[|input| - 1]];
    }
  }

  lemma FreshStages(plugins: seq<Plugin>)
    ensures ChainInv(plugins, Start0(plugins), [])
    ensures Handed(Start0(plugins).stages, [], |plugins|) == []
  {
  }

  // ----- the end of the stream -----

  /** EndStreamVerified: completeness on both sides, then every pending transaction; accepted unread when nothing is enforced. */
  predicate EndStream(plugins: seq<Plugin>, v: Verifier)
    requires |v.stages| == |plugins|
  {
    plugins != [] ==>
    && Complete(v.host)
    && (forall k :: 0 <= k < |plugins| ==> Complete(v.stages[k].walker))
    && (forall k :: 0 <= k < |plugins| && v.stages[k].scopeStart < |v.stages[k].accepted| ==>
          Verified(plugins[k], v.stages[k]))
  }

  lemma {:induction false} EndedStages(plugins: seq<Plugin>, v: Verifier, input: seq<Event>, k: nat)
    requires plugins != [] && ChainInv(plugins, v, input) && EndStream(plugins, v)
    requires k <= |plugins|
    ensures forall i :: 0 <= i < k ==> v.stages[i].journal.None?
    ensures Accepts(Handed(v.stages, input, k)) && Complete(Run(INITIAL, Handed(v.stages, input, k)).value)
  {
    hide Step, Verified, HasTerminal;
    if k > 0 {
      EndedStages(plugins, v, input, k - 1);
      NothingHeldAfterEnd(plugins[k - 1], v.stages[k - 1]);
    }
  }

  /**
   When the end of the stream is accepted, nothing is held in any journal, every stage that was
   handed anything was verified over everything it was handed and everything it returned, and
   the whole output is a legal trace with no block left open unless an error abandoned it. With
   no stream plugin every end is accepted and the output is the input.
   */
  lemma EndReleasesEverything(plugins: seq<Plugin>, replies: Replies, input: seq<Event>)
    requires RunStream(plugins, replies, input).0.Some?
    requires EndStream(plugins, RunStream(plugins, replies, input).0.value)
    ensures var (v, out) := RunStream(plugins, replies, input);
            && (if plugins == [] then out == input else Legal(out) && (Errored(out) || NothingOpen(out)))
            && forall k :: 0 <= k < |plugins| ==>
                 && v.value.stages[k].journal.None?
                 && Published(v.value.stages[k]) == v.value.stages[k].returned
                 && (v.value.stages[k].accepted == [] || Verified(plugins[k], v.value.stages[k]))
  {
    hide Step, Chunk, Verified;
    EveryRunIsSafe(plugins, replies, input);
    if plugins != [] {
      var (v, out) := RunStream(plugins, replies, input);
      EndedStages(plugins, v.value, input, |plugins|);
      CompleteMeans(out);
    }
  }
}
