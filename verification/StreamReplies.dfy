/**
 What a stage makes of its plugin's replies (internal/plugin/stream_enforce.go:654-825, 877-900).
 The pipeline's safety says what never leaves a stage; this module says what does: a reply the host
 has no objection to is what the stage returns and publishes, a failed one ends the stream or gives
 way to the event it was handed, a suppressed tool start holds the stage's output until it is
 decided, and a pipeline of plugins that all behave computes the composition of their replies.

 Every outcome is given by the plugin's verdicts, the trace discipline and the two event buffers.
 */
module StreamReplies {
  import opened Wrappers
  import opened StreamDiscipline
  import opened StreamPipeline

  // ----- one event -----

  function Arm(e: Event): nat {
    match e
    case NoEvent => 0
    case StreamError(_, _) => 1
    case Usage(_) => 2
    case MessageStart(_, _) => 3
    case MessageStop => 4
    case Start(_) => 5
    case Stop(_) => 6
    case TextDelta(_) => 7
    case ThinkingDelta(_) => 8
    case SignatureDelta(_) => 9
    case ToolCallDelta(_) => 10
  }

  /** The reply edits the event in place and the plugin may not. */
  predicate EditRefused(p: Plugin, ev: Event, es: seq<Event>) {
    |es| == 1 && Arm(ev) == Arm(es[0]) && !p.mayReplace(ev, es[0])
  }

  /** The host has no objection to the reply: no refused edit, and the stage's output goes on legally with it. */
  predicate Fine(p: Plugin, s: Stage, ev: Event, reply: Reply) {
    reply.Emit? && !EditRefused(p, ev, reply.events) && Run(s.walker, reply.events).Some?
  }

  /** The event starts a tool block. */
  predicate OpensTool(ev: Event) {
    ev.Start? && ev.start.Some? && ev.start.value.block.ToolBlock? && ev.start.value.block.call.Some?
  }

  predicate Suppresses(ev: Event, reply: Reply) {
    reply == Emit([]) && OpensTool(ev)
  }

  lemma JudgedFine(p: Plugin, s: Stage, ev: Event, reply: Reply)
    ensures Judge(p, s, ev, reply).Some? <==> Fine(p, s, ev, reply)
    ensures Fine(p, s, ev, reply) ==> Judge(p, s, ev, reply) == Run(s.walker, reply.events)
  {
    hide Run;
    if reply.Emit? && |reply.events| == 1 {
      assert SameArm(ev, reply.events[0]) <==> Arm(ev) == Arm(reply.events[0]);
    }
  }

  /** With no transaction open, a reply the host accepts is what the stage returns and publishes. */
  lemma ReplyIsPublished(p: Plugin, s: Stage, ev: Event, reply: Reply)
    requires !s.disabled && s.journal.None? && Fine(p, s, ev, reply) && !Suppresses(ev, reply)
    ensures Feed(p, s, ev, reply) ==
              Alive(s.(accepted := s.accepted + [ev], returned := s.returned + reply.events, walker := Run(s.walker, reply.events).value),
                    reply.events)
  {
    hide Run;
    JudgedFine(p, Receive(p, s, ev), ev, reply);
  }

  /** With no transaction open, a trap, a refused edit or an illegal reply ends a blocking plugin's stream; any other plugin's event passes in its place. */
  lemma FailureForwards(p: Plugin, s: Stage, ev: Event, reply: Reply)
    requires !s.disabled && s.journal.None? && !Fine(p, s, ev, reply)
    ensures p.blocks || Run(s.walker, [ev]).None? ==> Feed(p, s, ev, reply).Terminated?
    ensures !p.blocks && Run(s.walker, [ev]).Some? ==>
              Feed(p, s, ev, reply) ==
                Alive(s.(accepted := s.accepted + [ev], returned := s.returned + [ev], walker := Run(s.walker, [ev]).value), [ev])
  {
    hide Run;
    JudgedFine(p, Receive(p, s, ev), ev, reply);
  }

  /** A disabled stage forwards what it is handed as long as that is legal, whatever the plugin would say. */
  lemma DisabledPasses(p: Plugin, s: Stage, ev: Event, reply: Reply)
    requires s.disabled && s.journal.None? && !p.blocks
    ensures Run(s.walker, [ev]).None? ==> Feed(p, s, ev, reply).Terminated?
    ensures Run(s.walker, [ev]).Some? ==>
              Feed(p, s, ev, reply) ==
                Alive(s.(accepted := s.accepted + [ev], returned := s.returned + [ev], walker := Run(s.walker, [ev]).value), [ev])
  {
    hide Run;
  }

  // ----- one event of a transaction -----

  /** The bytes of a list of events. */
  ghost function Bytes(p: Plugin, es: seq<Event>): nat {
    if es == [] then 0 else p.cost(es[0]) + Bytes(p, es[1..])
  }

  lemma {:induction false} BytesSnoc(p: Plugin, es: seq<Event>, e: Event)
    ensures Bytes(p, es + [e]) == Bytes(p, es) + p.cost(e)
    decreases |es|
  {
    if es != [] {
      BytesSnoc(p, es[1..], e);
      assert (es + [e])[1..] == es[1..] + [e];
    } else {
      assert [] + [e] == [e] && [e][1..] == [];
    }
  }

  lemma ModAdd(a: nat, b: nat)
    ensures (a % 0x1_0000_0000_0000_0000 + b) % 0x1_0000_0000_0000_0000 == (a + b) % 0x1_0000_0000_0000_0000
  {
  }

  /** The running count is the sum, as a 64-bit counter holds it. */
  lemma {:induction false} CostIsSum(p: Plugin, b: nat, es: seq<Event>)
    requires b < 0x1_0000_0000_0000_0000
    ensures CostOf(p, b, es) == (b + Bytes(p, es)) % 0x1_0000_0000_0000_0000
    decreases |es|
  {
    if es != [] {
      var n := |es| - 1;
      var init, last := es[..n], es[n];
      assert es == init + [last];
      CostIsSum(p, b, init);
      BytesSnoc(p, init, last);
      ModAdd(b + Bytes(p, init), p.cost(last));
    }
  }

  lemma BytesAfter(p: Plugin, b: nat, ev: Event, es: seq<Event>)
    ensures CostOf(p, (b + p.cost(ev)) % UINT64, es) == (b + p.cost(ev) + Bytes(p, es)) % 0x1_0000_0000_0000_0000
  {
    hide CostOf, Bytes;
    CostIsSum(p, (b + p.cost(ev)) % UINT64, es);
    ModAdd(b + p.cost(ev), Bytes(p, es));
  }

  /** The transaction a suppressed start opens, with the event and what it costs. */
  ghost function Opened(p: Plugin, s: Stage, ev: Event): Journal
    requires OpensTool(ev)
  {
    Journal([ev], [], {ev.start.value.index}, s.walker, |s.returned|, p.cost(ev) % 0x1_0000_0000_0000_0000)
  }

  /** Suppressing a tool start within the limit opens a transaction and publishes nothing. */
  lemma SuppressedStartHolds(p: Plugin, s: Stage, ev: Event, reply: Reply)
    requires !s.disabled && s.journal.None? && Suppresses(ev, reply) && Opened(p, s, ev).bytes <= p.limit
    ensures Feed(p, s, ev, reply) == Alive(s.(accepted := s.accepted + [ev], journal := Some(Opened(p, s, ev))), [])
  {
    hide StepStart, StepStop, StepDelta, StepSignature;
    assert Run(s.walker, []) == Some(s.walker);
    assert s.returned + [] == s.returned && Opened(p, s, ev).outputs + [] == [];
    var r := Receive(p, s, ev);
    assert Judge(p, r, ev, reply) == Some(s.walker);
    var d := Defer(p, r.(walker := s.walker), ev, []);
    assert {} + {ev.start.value.index} == {ev.start.value.index};
    assert d.journal == Some(Opened(p, s, ev));
    assert Charge(p, d, []) == d;
  }

  /** The tool blocks still undecided after an event: a suppressed start adds one, its stop settles it, an error settles all. */
  ghost function Undecided(pending: set<int>, ev: Event, reply: Reply): set<int> {
    if ev.StreamError? then {}
    else if ev.Stop? && ev.index.Some? then pending - {ev.index.value}
    else if Suppresses(ev, reply) then pending + {ev.start.value.index}
    else pending
  }

  /** The open transaction after one more event and an accepted reply. */
  ghost function Grown(p: Plugin, j: Journal, ev: Event, reply: Reply): Journal
    requires reply.Emit?
  {
    j.(originals := j.originals + [ev], outputs := j.outputs + reply.events, pending := Undecided(j.pending, ev, reply),
       bytes := (j.bytes + p.cost(ev) + Bytes(p, reply.events)) % 0x1_0000_0000_0000_0000)
  }

  /** With a transaction open, a reply the host accepts within the limit is kept back, with the event, and nothing is published. */
  lemma ReplyIsHeld(p: Plugin, s: Stage, ev: Event, reply: Reply)
    requires !s.disabled && s.journal.Some? && Fine(p, s, ev, reply) && Grown(p, s.journal.value, ev, reply).bytes <= p.limit
    ensures Feed(p, s, ev, reply) ==
              Alive(s.(accepted := s.accepted + [ev], returned := s.returned + reply.events, walker := Run(s.walker, reply.events).value,
                       journal := Some(Grown(p, s.journal.value, ev, reply))), [])
  {
    hide Run, CostOf, Judge, Bytes;
    var j, es := s.journal.value, reply.events;
    JudgedFine(p, Receive(p, s, ev), ev, reply);
    BytesAfter(p, j.bytes, ev, es);
    var w := Run(s.walker, es).value;
    var s2 := Charge(p, Defer(p, Receive(p, s, ev).(walker := w), ev, es), es);
    assert !OverLimit(p, s2);
    CommitGrows(p, s, w, ev, reply);
  }

  lemma CommitGrows(p: Plugin, s: Stage, w: State, ev: Event, reply: Reply)
    requires s.journal.Some? && reply.Emit?
    ensures var es := reply.events;
            var s2 := Charge(p, Defer(p, Receive(p, s, ev).(walker := w), ev, es), es);
            Commit(s2, ev, es) ==
              Alive(s.(accepted := s.accepted + [ev], returned := s.returned + es, walker := w,
                       journal := Some(Grown(p, s.journal.value, ev, reply))), [])
  {
    hide CostOf, Bytes;
    BytesAfter(p, s.journal.value.bytes, ev, reply.events);
  }

  /** The stage with everything handed over since the transaction opened in place of what was returned since. */
  ghost function Undone(s: Stage, j: Journal): Stage
    requires j.returnedStart <= |s.returned| && Run(j.walker, j.originals).Some?
  {
    s.(walker := Run(j.walker, j.originals).value, returned := s.returned[..j.returnedStart] + j.originals,
       journal := None, disabled := true)
  }

  /** The events handed over since the transaction opened are legal there, and both verifiers pass with them in place. */
  ghost predicate CanUndo(p: Plugin, s: Stage, j: Journal) {
    && j.returnedStart <= |s.returned| && Run(j.walker, j.originals).Some?
    && p.prefix(s.accepted, s.returned[..j.returnedStart] + j.originals)
    && p.policy(s.accepted, s.returned[..j.returnedStart] + j.originals)
  }

  lemma RollbackExactly(p: Plugin, s: Stage, j: Journal)
    requires s.journal == Some(j)
    ensures Rollback(p, s) == if CanUndo(p, s, j) then Some(Undone(s, j)) else None
  {
    hide Run;
  }

  /** The transaction the stage is in once the event is received: the open one, or the one its suppression opened. */
  ghost function Current(p: Plugin, s: Stage, ev: Event): Journal
    requires s.journal.None? ==> OpensTool(ev)
  {
    if s.journal.Some? then s.journal.value.(originals := s.journal.value.originals + [ev]) else Opened(p, s, ev)
  }

  /** The reply fails an open transaction, or overruns the limit of the one it is in. */
  ghost predicate FailsTransaction(p: Plugin, s: Stage, ev: Event, reply: Reply) {
    if s.journal.Some? then !Fine(p, s, ev, reply) || Grown(p, s.journal.value, ev, reply).bytes > p.limit
    else Suppresses(ev, reply) && Opened(p, s, ev).bytes > p.limit
  }

  /**
   A failed transaction ends a blocking plugin's stream. Any other plugin's is undone where that
   can be: everything handed over since it opened is published, and the plugin is not asked again.
   */
  lemma TransactionFails(p: Plugin, s: Stage, ev: Event, reply: Reply)
    requires !s.disabled && FailsTransaction(p, s, ev, reply)
    ensures var j, r := Current(p, s, ev), s.(accepted := s.accepted + [ev]);
            if p.blocks || !CanUndo(p, r, j) then Feed(p, s, ev, reply).Terminated?
            else Feed(p, s, ev, reply) == Alive(Undone(r, j), j.originals)
  {
    if s.journal.Some? {
      OpenTransactionFails(p, s, ev, reply);
    } else {
      NewTransactionFails(p, s, ev, reply);
    }
  }

  /** Undoing does not depend on the walker, the pending set or the byte count at the moment of failure. */
  lemma SameUndo(p: Plugin, r: Stage, j: Journal, s: Stage, k: Journal)
    requires s == r.(walker := s.walker, journal := Some(k)) && k == j.(pending := k.pending, bytes := k.bytes)
    ensures CanUndo(p, s, k) <==> CanUndo(p, r, j)
    ensures CanUndo(p, r, j) ==> Undone(s, k) == Undone(r, j)
  {
    hide Run;
  }

  lemma RecoverUndoes(p: Plugin, s: Stage, k: Journal, ev: Event, r: Stage, j: Journal)
    requires s.journal == Some(k) && s == r.(walker := s.walker, journal := Some(k)) && k == j.(pending := k.pending, bytes := k.bytes)
    ensures if p.blocks || !CanUndo(p, r, j) then Recover(p, s, ev).Terminated?
            else Recover(p, s, ev) == Alive(Undone(r, j), j.originals)
  {
    hide Run, Rollback, CanUndo, Undone;
    RollbackExactly(p, s, k);
    SameUndo(p, r, j, s, k);
  }

  lemma OpenTransactionFails(p: Plugin, s: Stage, ev: Event, reply: Reply)
    requires !s.disabled && s.journal.Some? && FailsTransaction(p, s, ev, reply)
    ensures var j, r := Current(p, s, ev), s.(accepted := s.accepted + [ev]);
            if p.blocks || !CanUndo(p, r, j) then Feed(p, s, ev, reply).Terminated?
            else Feed(p, s, ev, reply) == Alive(Undone(r, j), j.originals)
  {
    hide Run, CostOf, Bytes, Judge, CanUndo, Undone, Recover;
    var j, r, s1 := Current(p, s, ev), s.(accepted := s.accepted + [ev]), Receive(p, s, ev);
    JudgedFine(p, s1, ev, reply);
    if !Fine(p, s, ev, reply) {
      RecoverUndoes(p, s1, s1.journal.value, ev, r, j);
    } else {
      var b, es := s.journal.value.bytes, reply.events;
      BytesAfter(p, b, ev, es);
      var s2 := Charge(p, Defer(p, s1.(walker := Run(s.walker, es).value), ev, es), es);
      RecoverUndoes(p, s2, s2.journal.value, ev, r, j);
    }
  }

  lemma NewTransactionFails(p: Plugin, s: Stage, ev: Event, reply: Reply)
    requires !s.disabled && s.journal.None? && FailsTransaction(p, s, ev, reply)
    ensures var j, r := Current(p, s, ev), s.(accepted := s.accepted + [ev]);
            if p.blocks || !CanUndo(p, r, j) then Feed(p, s, ev, reply).Terminated?
            else Feed(p, s, ev, reply) == Alive(Undone(r, j), j.originals)
  {
    hide Step, CanUndo, Undone, Recover;
    var j, r, s1 := Current(p, s, ev), s.(accepted := s.accepted + [ev]), Receive(p, s, ev);
    assert Run(s.walker, []) == Some(s.walker);
    assert Judge(p, s1, ev, reply) == Some(s.walker);
    var s2 := Charge(p, Defer(p, s1.(walker := s.walker), ev, []), []);
    assert {} + {ev.start.value.index} == {ev.start.value.index};
    RecoverUndoes(p, s2, s2.journal.value, ev, r, j);
  }

  // ----- the end of a batch -----

  predicate Closes(e: Event) {
    e.Stop? || e.MessageStop? || e.StreamError?
  }

  predicate Ends(e: Event) {
    e.MessageStop? || e.StreamError?
  }

  /** An event from position `n` on closes a scope. */
  ghost predicate ClosesFrom(es: seq<Event>, n: nat) {
    exists i: nat :: n <= i < |es| && Closes(es[i])
  }

  ghost predicate EndsFrom(es: seq<Event>, n: nat) {
    exists i: nat :: n <= i < |es| && Ends(es[i])
  }

  /** A finished scope passes: both verifiers on the whole buffers, and at the end of the message nothing left open. */
  ghost predicate ScopePasses(p: Plugin, a: seq<Event>, r: seq<Event>, a0: nat, r0: nat) {
    && (EndsFrom(a, a0) || EndsFrom(r, r0) ==> Errored(r) || NothingOpen(r))
    && p.prefix(a, r) && p.policy(a, r)
  }

  lemma SinceMeans(es: seq<Event>, n: nat)
    ensures HasClose(Since(es, n)) <==> ClosesFrom(es, n)
    ensures HasTerminal(Since(es, n)) <==> EndsFrom(es, n)
  {
    var tail := Since(es, n);
    if ClosesFrom(es, n) {
      var i: nat :| n <= i < |es| && Closes(es[i]);
      assert IsClose(tail[i - n]);
    }
    if EndsFrom(es, n) {
      var i: nat :| n <= i < |es| && Ends(es[i]);
      assert IsTerminal(tail[i - n]);
    }
    if HasClose(tail) {
      var i :| 0 <= i < |tail| && IsClose(tail[i]);
      assert Closes(es[n + i]);
    }
    if HasTerminal(tail) {
      var i :| 0 <= i < |tail| && IsTerminal(tail[i]);
      assert Ends(es[n + i]);
    }
  }

  lemma ScopeMeans(p: Plugin, begin: Stage, s: Stage)
    requires Run(INITIAL, s.returned) == Some(s.walker)
    ensures var handed, produced := Since(s.accepted, |begin.accepted|), Since(s.returned, |begin.returned|);
            && (HasClose(handed) || HasClose(produced) <==>
                  ClosesFrom(s.accepted, |begin.accepted|) || ClosesFrom(s.returned, |begin.returned|))
            && ((HasTerminal(handed) || HasTerminal(produced) ==> Complete(s.walker)) && Verified(p, s) <==>
                  ScopePasses(p, s.accepted, s.returned, |begin.accepted|, |begin.returned|))
  {
    hide Run, HasClose, HasTerminal, Since, ClosesFrom, EndsFrom, Complete, Errored, NothingOpen, Legal;
    SinceMeans(s.accepted, |begin.accepted|);
    SinceMeans(s.returned, |begin.returned|);
    WalkerAcceptsExactlyLegal(s.returned);
    CompleteMeans(s.returned);
  }

  /** The output held back, if any. */
  function HeldBack(s: Stage): seq<Event> {
    if s.journal.Some? then s.journal.value.outputs else []
  }

  /**
   The end of a batch, exactly. While a suppressed start is undecided nothing changes. Otherwise
   what was held back is released, after the scope is verified if one was closed on either side; a
   scope that fails is undone where a transaction is open and can be, and ends the stream otherwise.
   */
  lemma SettleExactly(p: Plugin, begin: Stage, s: Stage, published: seq<Event>)
    requires Run(INITIAL, s.returned) == Some(s.walker)
    ensures var o := Settle(p, begin, s, published);
            if s.journal.Some? && s.journal.value.pending != {} then o == Alive(s, published)
            else if !(ClosesFrom(s.accepted, |begin.accepted|) || ClosesFrom(s.returned, |begin.returned|)) then
              o == Alive(s.(journal := None), published + HeldBack(s))
            else if ScopePasses(p, s.accepted, s.returned, |begin.accepted|, |begin.returned|) then
              o == Alive(s.(journal := None, scopeStart := |s.accepted|), published + HeldBack(s))
            else if s.journal.Some? && !p.blocks && CanUndo(p, s, s.journal.value) then
              o == Alive(Undone(s, s.journal.value).(scopeStart := |s.accepted|), published + s.journal.value.originals)
            else o.Terminated?
  {
    hide Run, HasClose, HasTerminal, Since, ClosesFrom, ScopePasses, Complete, Verified, Rollback, CanUndo, Undone;
    ScopeMeans(p, begin, s);
    assert published + [] == published;
    if s.journal.Some? { RollbackExactly(p, s, s.journal.value); }
  }

  /** The end of the stream is accepted exactly when nothing is left open on either side of any stage and every pending scope passes. */
  lemma EndsExactly(plugins: seq<Plugin>, v: Verifier, input: seq<Event>)
    requires plugins != [] && ChainInv(plugins, v, input)
    ensures EndStream(plugins, v) <==>
              && (Errored(input) || NothingOpen(input))
              && forall k :: 0 <= k < |plugins| ==>
                   var s := v.stages[k];
                   && (Errored(s.returned) || NothingOpen(s.returned))
                   && (s.scopeStart < |s.accepted| ==> plugins[k].prefix(s.accepted, s.returned) && plugins[k].policy(s.accepted, s.returned))
  {
    hide Run, Complete, Errored, NothingOpen, Legal;
    WalkerAcceptsExactlyLegal(input);
    CompleteMeans(input);
    forall k | 0 <= k < |plugins|
      ensures Complete(v.stages[k].walker) <==> Errored(v.stages[k].returned) || NothingOpen(v.stages[k].returned)
    {
      assert StageInv(plugins[k], v.stages[k]);
      WalkerAcceptsExactlyLegal(v.stages[k].returned);
      CompleteMeans(v.stages[k].returned);
    }
  }

  // ----- plugins that behave -----

  function Said(reply: Reply): seq<Event> {
    if reply.Emit? then reply.events else []
  }

  /** What stage `k` says to the first `n` events it is handed. */
  ghost function Made(replies: Replies, k: nat, n: nat): seq<Event> {
    if n == 0 then [] else Made(replies, k, n - 1) + Said(replies(k, n - 1))
  }

  /** The composition of the replies: what stage `k` is handed when every stage before it is taken at its word. */
  ghost function Flow(replies: Replies, input: seq<Event>, k: nat): seq<Event> {
    if k == 0 then input else Made(replies, k - 1, |Flow(replies, input, k - 1)|)
  }

  /** The reply edits only what it may and suppresses no tool start. */
  predicate CivilReply(p: Plugin, ev: Event, reply: Reply) {
    reply.Emit? && !EditRefused(p, ev, reply.events) && !Suppresses(ev, reply)
  }

  ghost predicate CivilReplies(p: Plugin, replies: Replies, k: nat, start: nat, evs: seq<Event>) {
    forall i :: 0 <= i < |evs| ==> CivilReply(p, evs[i], replies(k, start + i))
  }

  /** Every reply of the stage is civil, and together they are legal. */
  ghost predicate Civil(p: Plugin, replies: Replies, input: seq<Event>, k: nat) {
    Legal(Flow(replies, input, k + 1)) && CivilReplies(p, replies, k, 0, Flow(replies, input, k))
  }

  /** Whatever scope the stage's answer to the host's event `t` closes passes. */
  ghost predicate Passing(p: Plugin, replies: Replies, input: seq<Event>, k: nat, t: nat)
    requires t < |input|
  {
    var a0, r0 := |Flow(replies, input[..t], k)|, |Flow(replies, input[..t], k + 1)|;
    var a, r := Flow(replies, input[..t + 1], k), Flow(replies, input[..t + 1], k + 1);
    ClosesFrom(a, a0) || ClosesFrom(r, r0) ==> ScopePasses(p, a, r, a0, r0)
  }

  ghost predicate Behaves(plugins: seq<Plugin>, replies: Replies, input: seq<Event>) {
    forall k :: 0 <= k < |plugins| ==>
      Civil(plugins[k], replies, input, k) && forall t :: 0 <= t < |input| ==> Passing(plugins[k], replies, input, k, t)
  }

  lemma {:induction false} MadePrefix(replies: Replies, k: nat, m: nat, n: nat)
    requires m <= n
    ensures |Made(replies, k, m)| <= |Made(replies, k, n)| && Made(replies, k, n)[..|Made(replies, k, m)|] == Made(replies, k, m)
    decreases n
  {
    if m < n { MadePrefix(replies, k, m, n - 1); }
  }

  lemma {:induction false} FlowPrefix(replies: Replies, input: seq<Event>, t: nat, k: nat)
    requires t <= |input|
    ensures var short, long := Flow(replies, input[..t], k), Flow(replies, input, k);
            |short| <= |long| && long[..|short|] == short
    decreases k
  {
    if k > 0 {
      FlowPrefix(replies, input, t, k - 1);
      MadePrefix(replies, k - 1, |Flow(replies, input[..t], k - 1)|, |Flow(replies, input, k - 1)|);
    }
  }

  lemma LegalPrefix(es: seq<Event>, n: nat)
    requires n <= |es| && Legal(es)
    ensures Legal(es[..n])
  {
    hide Fits;
    assert forall i :: 0 <= i < n ==> es[..n][..i] == es[..i];
  }

  lemma CivilBefore(p: Plugin, replies: Replies, input: seq<Event>, k: nat, t: nat)
    requires t <= |input| && Civil(p, replies, input, k)
    ensures Civil(p, replies, input[..t], k)
  {
    hide Legal, Flow, CivilReply;
    FlowPrefix(replies, input, t, k);
    FlowPrefix(replies, input, t, k + 1);
    LegalPrefix(Flow(replies, input, k + 1), |Flow(replies, input[..t], k + 1)|);
    var short, long := Flow(replies, input[..t], k), Flow(replies, input, k);
    assert forall n :: 0 <= n < |short| ==> short[n] == long[..|short|][n] == long[n];
  }

  lemma BehavesBefore(plugins: seq<Plugin>, replies: Replies, input: seq<Event>, t: nat)
    requires t <= |input| && Behaves(plugins, replies, input)
    ensures Behaves(plugins, replies, input[..t])
  {
    hide Civil, Flow, ScopePasses, ClosesFrom;
    forall k | 0 <= k < |plugins|
      ensures Civil(plugins[k], replies, input[..t], k) && forall u :: 0 <= u < t ==> Passing(plugins[k], replies, input[..t], k, u)
    {
      CivilBefore(plugins[k], replies, input, k, t);
      forall u | 0 <= u < t ensures Passing(plugins[k], replies, input[..t], k, u) {
        assert input[..t][..u] == input[..u] && input[..t][..u + 1] == input[..u + 1];
        assert Passing(plugins[k], replies, input, k, u);
      }
    }
  }

  /** A stage at rest that was handed `a` and returned, and published, `r`. */
  ghost predicate Even(s: Stage, a: seq<Event>, r: seq<Event>) {
    s.accepted == a && s.returned == r && Run(INITIAL, r) == Some(s.walker) && s.journal.None? && !s.disabled
  }

  lemma EvenFeed(p: Plugin, s: Stage, a: seq<Event>, r: seq<Event>, ev: Event, reply: Reply)
    requires Even(s, a, r) && reply.Emit? && !EditRefused(p, ev, reply.events) && !Suppresses(ev, reply)
    requires Run(INITIAL, r + reply.events).Some?
    ensures var o := Feed(p, s, ev, reply);
            o.Alive? && Even(o.stage, a + [ev], r + reply.events) && o.published == reply.events
  {
    hide Run, Feed, EditRefused, Suppresses;
    RunAppend(INITIAL, r, reply.events);
    ReplyIsPublished(p, s, ev, reply);
  }

  /** A surviving stage at rest, with what it published since it had returned `r0`. */
  ghost predicate Kept(o: Outcome, a: seq<Event>, r0: seq<Event>, r: seq<Event>) {
    o.Alive? && Even(o.stage, a, r) && r == r0 + o.published
  }

  lemma FeedAllSnoc(p: Plugin, s: Stage, evs: seq<Event>, ev: Event, replies: nat -> Reply)
    requires FeedAll(p, s, evs, replies).Alive?
    ensures var before := FeedAll(p, s, evs, replies);
            var next := Feed(p, before.stage, ev, replies(|before.stage.accepted|));
            FeedAll(p, s, evs + [ev], replies) ==
              if next.Terminated? then Terminated else Alive(next.stage, before.published + next.published)
  {
    hide Feed;
    assert (evs + [ev])[..|evs|] == evs;
  }

  lemma AtStage(replies: Replies, k: nat, n: nat)
    ensures ForStage(replies, k)(n) == replies(k, n)
  {
  }

  lemma MadeNext(replies: Replies, k: nat, n: nat)
    ensures Made(replies, k, n + 1) == Made(replies, k, n) + Said(replies(k, n))
  {
  }

  lemma KeptNext(p: Plugin, s: Stage, replies: Replies, k: nat, a: seq<Event>, evs: seq<Event>, ev: Event, r0: seq<Event>)
    requires Kept(FeedAll(p, s, evs, ForStage(replies, k)), a, r0, Made(replies, k, |a|))
    requires CivilReply(p, ev, replies(k, |a|)) && Run(INITIAL, Made(replies, k, |a| + 1)).Some?
    ensures Kept(FeedAll(p, s, evs + [ev], ForStage(replies, k)), a + [ev], r0, Made(replies, k, |a| + 1))
  {
    hide Run, Feed, FeedAll, EditRefused, Suppresses, Made, ForStage;
    var stage := ForStage(replies, k);
    var before, reply := FeedAll(p, s, evs, stage), replies(k, |a|);
    FeedAllSnoc(p, s, evs, ev, stage);
    AtStage(replies, k, |a|);
    MadeNext(replies, k, |a|);
    EvenFeed(p, before.stage, a, Made(replies, k, |a|), ev, reply);
    assert r0 + (before.published + reply.events) == (r0 + before.published) + reply.events;
  }

  /** A stage whose replies are civil takes a whole batch at its word. */
  lemma {:induction false} EvenFeedAll(p: Plugin, s: Stage, replies: Replies, k: nat, a: seq<Event>, evs: seq<Event>, m: nat)
    requires Even(s, a, Made(replies, k, |a|)) && m <= |evs|
    requires Run(INITIAL, Made(replies, k, |a| + |evs|)).Some?
    requires CivilReplies(p, replies, k, |a|, evs)
    ensures Kept(FeedAll(p, s, evs[..m], ForStage(replies, k)), a + evs[..m], Made(replies, k, |a|), Made(replies, k, |a| + m))
    decreases m
  {
    hide *;
    if m == 0 {
      KeptNothing(p, s, replies, k, a, evs);
    } else {
      EvenFeedAll(p, s, replies, k, a, evs, m - 1);
      var n, ev, sofar := |a| + (m - 1), evs[m - 1], a + evs[..m - 1];
      assert evs[..m] == evs[..m - 1] + [ev] && a + evs[..m] == sofar + [ev] && |sofar| == n;
      MadeRuns(replies, k, n + 1, |a| + |evs|);
      CivilAt(p, replies, k, |a|, evs, m - 1);
      KeptNext(p, s, replies, k, sofar, evs[..m - 1], ev, Made(replies, k, |a|));
    }
  }

  lemma KeptNothing(p: Plugin, s: Stage, replies: Replies, k: nat, a: seq<Event>, evs: seq<Event>)
    requires Even(s, a, Made(replies, k, |a|))
    ensures Kept(FeedAll(p, s, evs[..0], ForStage(replies, k)), a + evs[..0], Made(replies, k, |a|), Made(replies, k, |a| + 0))
  {
    hide Made, Run, Feed;
    assert a + evs[..0] == a;
  }

  lemma MadeRuns(replies: Replies, k: nat, m: nat, n: nat)
    requires m <= n && Run(INITIAL, Made(replies, k, n)).Some?
    ensures Run(INITIAL, Made(replies, k, m)).Some?
  {
    hide *;
    MadePrefix(replies, k, m, n);
    RunPrefix(INITIAL, Made(replies, k, n), |Made(replies, k, m)|);
  }

  lemma CivilAt(p: Plugin, replies: Replies, k: nat, start: nat, evs: seq<Event>, i: nat)
    requires CivilReplies(p, replies, k, start, evs) && i < |evs|
    ensures CivilReply(p, evs[i], replies(k, start + i))
  {
    hide CivilReply;
  }

  /** And through the end of the batch, if the scope it closes passes. */
  lemma EvenBatch(p: Plugin, s: Stage, replies: Replies, k: nat, a: seq<Event>, evs: seq<Event>)
    requires Even(s, a, Made(replies, k, |a|)) && Legal(Made(replies, k, |a| + |evs|))
    requires CivilReplies(p, replies, k, |a|, evs)
    requires var r0, r := |Made(replies, k, |a|)|, Made(replies, k, |a| + |evs|);
             ClosesFrom(a + evs, |a|) || ClosesFrom(r, r0) ==> ScopePasses(p, a + evs, r, |a|, r0)
    ensures var o, r0, r := RunBatch(p, s, evs, ForStage(replies, k)), Made(replies, k, |a|), Made(replies, k, |a| + |evs|);
            o.Alive? && Even(o.stage, a + evs, r) && r == r0 + o.published
  {
    hide Run, FeedAll, Settle, Legal, CivilReplies, ClosesFrom, ScopePasses, Made, ForStage;
    var r := Made(replies, k, |a| + |evs|);
    WalkerAcceptsExactlyLegal(r);
    EvenFeedAll(p, s, replies, k, a, evs, |evs|);
    assert evs[..|evs|] == evs;
    var fed := FeedAll(p, s, evs, ForStage(replies, k));
    SettleExactly(p, s, fed.stage, fed.published);
    assert fed.published + HeldBack(fed.stage) == fed.published;
  }

  // ----- the chain -----

  ghost predicate Steady(plugins: seq<Plugin>, replies: Replies, input: seq<Event>, stages: seq<Stage>) {
    && |stages| == |plugins|
    && forall k :: 0 <= k < |plugins| ==> Even(stages[k], Flow(replies, input, k), Flow(replies, input, k + 1))
  }

  /** The first `k` stages have taken the host's next event, the others have not, and `evs` is on its way. */
  ghost predicate MidWay(plugins: seq<Plugin>, replies: Replies, input: seq<Event>, ev: Event, stages: seq<Stage>, evs: seq<Event>, k: nat) {
    && |stages| == |plugins| && k <= |plugins|
    && (forall i :: 0 <= i < k ==> Even(stages[i], Flow(replies, input + [ev], i), Flow(replies, input + [ev], i + 1)))
    && (forall i :: k <= i < |plugins| ==> Even(stages[i], Flow(replies, input, i), Flow(replies, input, i + 1)))
    && Flow(replies, input + [ev], k) == Flow(replies, input, k) + evs
  }

  lemma CivilBatch(p: Plugin, replies: Replies, input: seq<Event>, ev: Event, s: Stage, evs: seq<Event>, k: nat)
    requires Civil(p, replies, input + [ev], k) && Passing(p, replies, input + [ev], k, |input|)
    requires Even(s, Flow(replies, input, k), Flow(replies, input, k + 1))
    requires Flow(replies, input + [ev], k) == Flow(replies, input, k) + evs
    ensures var o := RunBatch(p, s, evs, ForStage(replies, k));
            && o.Alive? && Even(o.stage, Flow(replies, input + [ev], k), Flow(replies, input + [ev], k + 1))
            && Flow(replies, input + [ev], k + 1) == Flow(replies, input, k + 1) + o.published
  {
    hide Run, RunBatch, Legal, CivilReply, ClosesFrom, ScopePasses, Made, ForStage;
    assert (input + [ev])[..|input|] == input && (input + [ev])[..|input| + 1] == input + [ev];
    var a := Flow(replies, input, k);
    assert forall i :: 0 <= i < |evs| ==> (a + evs)[|a| + i] == evs[i];
    EvenBatch(p, s, replies, k, a, evs);
  }

  lemma {:induction false} SteadyThrough(plugins: seq<Plugin>, replies: Replies, input: seq<Event>, ev: Event, stages: seq<Stage>, k: nat)
    requires k <= |plugins| && Steady(plugins, replies, input, stages) && Behaves(plugins, replies, input + [ev])
    ensures var t := Through(plugins, replies, stages, [ev], k);
            t.Some? && MidWay(plugins, replies, input, ev, t.value.0, t.value.1, k)
    decreases k
  {
    hide RunBatch, Civil, Passing, Even, Made;
    if k > 0 {
      SteadyThrough(plugins, replies, input, ev, stages, k - 1);
      var t := Through(plugins, replies, stages, [ev], k - 1).value;
      assert Passing(plugins[k - 1], replies, input + [ev], k - 1, |input|);
      CivilBatch(plugins[k - 1], replies, input, ev, t.0[k - 1], t.1, k - 1);
    }
  }

  /**
   A pipeline whose plugins all behave is their composition. For any plugins, blocking or not, and
   any legal input: if every reply edits only what it may and suppresses no tool start, the replies
   of every stage are legal together, and every scope closed passes its verifiers, then the stream
   never ends early and its output is the last stage's replies to the replies of the one before it,
   and so on down to the host's events.
   */
  lemma {:induction false} BehavedRun(plugins: seq<Plugin>, replies: Replies, input: seq<Event>)
    requires plugins != [] && Legal(input) && Behaves(plugins, replies, input)
    ensures var (v, out) := RunStream(plugins, replies, input);
            v.Some? && Steady(plugins, replies, input, v.value.stages) && out == Flow(replies, input, |plugins|)
    decreases |input|
  {
    hide Step, Behaves, Legal, Through, Even, Made;
    if input == [] {
      NothingFlows(plugins, replies);
    } else {
      var n := |input| - 1;
      var init, ev := input[..n], input[n];
      assert input == init + [ev];
      LegalPrefix(input, n);
      BehavesBefore(plugins, replies, input, n);
      BehavedRun(plugins, replies, init);
      var v := RunStream(plugins, replies, init).0.value;
      HostGoesOn(plugins, replies, init, ev);
      SteadyThrough(plugins, replies, init, ev, v.stages, |plugins|);
    }
  }

  lemma HostGoesOn(plugins: seq<Plugin>, replies: Replies, init: seq<Event>, ev: Event)
    requires plugins != [] && Legal(init + [ev]) && RunStream(plugins, replies, init).0.Some?
    ensures Step(RunStream(plugins, replies, init).0.value.host, ev).1
  {
    hide Step, RunStream, Legal, StageInv, AtRest, Handed;
    WalkerAcceptsExactlyLegal(init + [ev]);
    EveryRunIsSafe(plugins, replies, init);
    RunAppend(INITIAL, init, [ev]);
    RunOne(RunStream(plugins, replies, init).0.value.host, ev);
  }

  lemma {:induction false} FlowOfNothing(replies: Replies, k: nat)
    ensures Flow(replies, [], k) == []
    decreases k
  {
    if k > 0 { FlowOfNothing(replies, k - 1); }
  }

  lemma NothingFlows(plugins: seq<Plugin>, replies: Replies)
    ensures Steady(plugins, replies, [], Start0(plugins).stages) && Flow(replies, [], |plugins|) == []
  {
    hide Flow;
    FlowOfNothing(replies, |plugins|);
    forall k | 0 <= k < |plugins| ensures Even(FRESH, Flow(replies, [], k), Flow(replies, [], k + 1)) {
      FlowOfNothing(replies, k);
      FlowOfNothing(replies, k + 1);
    }
  }
}
