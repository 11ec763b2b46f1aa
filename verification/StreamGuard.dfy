/**
 The two automata at the ends of the bridge's canonical stream: what the parser lets out
 (internal/bridge/stream.go:24-214) and what the guard lets through to the destination's serializer
 (internal/bridge/stream.go:302-419, 435-509).

 Each event has one arm; an event with none is a Finish with no reason. Tool identity rules and
 the test for a complete JSON object are parameters, as are the identities the parser generates.
 Channels are sequences; cancellation is left out.
 */
module StreamGuard {
  import opened Wrappers
  import U = BridgeUsage

  type Protocol = U.Protocol

  const MAX_TOOL_CALLS: nat := 128
  const MAX_FRAME_BYTES: nat := 2 * 1024 * 1024

  datatype BlockKind = PlainText | Thinking | Provider

  datatype ToolKind = Function | Freeform | OtherKind

  datatype Event =
    | TextDelta(text: string)
    | ThinkingDelta(text: string)
    | SignatureDelta(signature: string)
    | BlockStart(block: int, kind: BlockKind)
    | BlockStop(block: int)
    | MessageStart(id: string, model: string)
    | ToolStart(index: int, id: string, name: string, tool: ToolKind, signature: string)
    | ToolDelta(index: int, arguments: string, input: Option<string>)
    | ToolEnd(index: int)
    | Finish(reason: string)
    | Usage(usage: U.Usage)
    | Error(code: int)

  /** Tool identities legal on a protocol, and argument texts that are one JSON object. */
  datatype Rules = Rules(identity: (Protocol, string, string) -> bool, isObject: string -> bool)

  /** A tool call that has not ended, with the arguments gathered so far. */
  datatype Open = Open(tool: ToolKind, arguments: string)

  type Opens = map<int, Open>

  /** What both automata keep about tool calls. */
  datatype Tools = Tools(active: Opens, seen: set<int>, bytes: nat)

  const NoTools: Tools := Tools(map[], {}, 0)

  predicate IsFinish(e: Event) {
    e.Finish? && e.reason != ""
  }

  predicate IsContent(e: Event) {
    !IsFinish(e) && !e.Usage? && !e.Error?
  }

  /** Why a stream is refused: how its events are put together, what the two protocols can carry, its counters, its source, or a tool identity. */
  datatype Fault = Framing | Capability | Accounting | Upstream | Identity

  // ----- the guard -----

  predicate BlockSignatures(p: Protocol) {
    p.Anthropic? || U.IsGemini(p)
  }

  /** What an event does to the tool calls, when its framing is right. */
  function Track(rules: Rules, t: Tools, e: Event): Option<Tools> {
    match e
    case ToolStart(index, _, _, tool, _) =>
      if index < 0 || tool.OtherKind? || |t.seen| >= MAX_TOOL_CALLS || index in t.seen then None
      else Some(t.(active := t.active[index := Open(tool, "")], seen := t.seen + {index}))
    case ToolDelta(index, arguments, _) =>
      if index !in t.active then None
      else if t.active[index].tool.Freeform? then Some(t)
      else if t.bytes + |arguments| > MAX_FRAME_BYTES then None
      else
        var o := t.active[index];
        Some(t.(active := t.active[index := o.(arguments := o.arguments + arguments)], bytes := t.bytes + |arguments|))
    case ToolEnd(index) =>
      if index !in t.active || (!t.active[index].tool.Freeform? && !rules.isObject(t.active[index].arguments)) then None
      else Some(t.(active := t.active - {index}))
    case _ => Some(t)
  }

  datatype Checked = Pass(tools: Tools) | Fail(fault: Fault)

  function PassIf(t: Option<Tools>): Checked {
    if t.Some? then Pass(t.value) else Fail(Framing)
  }

  /** guardStreamEvent, its checks in their order. */
  function GuardTools(rules: Rules, from: Protocol, to: Protocol, t: Tools, e: Event): Checked {
    match e
    case BlockStart(_, kind) => if from != to && (kind.Provider? || kind.Thinking?) then Fail(Capability) else Pass(t)
    case ThinkingDelta(_) => if from != to then Fail(Capability) else Pass(t)
    case SignatureDelta(_) => if from != to || !BlockSignatures(from) then Fail(Capability) else Pass(t)
    case ToolStart(index, id, name, tool, signature) =>
      if index < 0 || tool.OtherKind? then Fail(Framing)
      else if !rules.identity(from, name, id) || !rules.identity(to, name, id) then Fail(Identity)
      else if |t.seen| >= MAX_TOOL_CALLS || index in t.seen then Fail(Framing)
      else if tool.Freeform? && !(from.OpenAIResponses? && to.OpenAIResponses?) then Fail(Capability)
      else if signature != "" && (from != to || !U.IsGemini(from)) then Fail(Capability)
      else PassIf(Track(rules, t, e))
    case ToolDelta(index, arguments, input) =>
      if index !in t.active then Fail(Framing)
      else if t.active[index].tool.Freeform? && (input.None? || arguments != "") then Fail(Framing)
      else if !t.active[index].tool.Freeform? && input.Some? then Fail(Framing)
      else PassIf(Track(rules, t, e))
    case ToolEnd(_) => PassIf(Track(rules, t, e))
    case _ => Pass(t)
  }

  /** What the two protocols can carry, event by event. */
  predicate CanCarry(rules: Rules, from: Protocol, to: Protocol, e: Event) {
    match e
    case BlockStart(_, kind) => from == to || kind.PlainText?
    case ThinkingDelta(_) => from == to
    case SignatureDelta(_) => from == to && (from.Anthropic? || from.Gemini? || from.GeminiCodeAssist?)
    case ToolStart(_, id, name, tool, signature) =>
      && rules.identity(from, name, id) && rules.identity(to, name, id)
      && (tool.Freeform? ==> from.OpenAIResponses? && to.OpenAIResponses?)
      && (signature != "" ==> from == to && (from.Gemini? || from.GeminiCodeAssist?))
    case _ => true
  }

  /** A delta of an open call carries its call's payload family: arguments for a function, input text alone for a free-form call. */
  predicate InFamily(t: Tools, e: Event) {
    e.ToolDelta? && e.index in t.active ==>
      if t.active[e.index].tool.Freeform? then e.input.Some? && e.arguments == "" else e.input.None?
  }

  /**
   The guard lets an event pass exactly when the protocols can carry it, its framing is right and
   it carries its call's family; it blames the framing only for the last two, and always for them
   when the protocols can carry the event.
   */
  lemma GuardTracks(rules: Rules, from: Protocol, to: Protocol, t: Tools, e: Event)
    ensures var c, next := GuardTools(rules, from, to, t, e), Track(rules, t, e);
            && (c.Pass? <==> CanCarry(rules, from, to, e) && InFamily(t, e) && next.Some?)
            && (c.Pass? ==> next == Some(c.tools))
            && (c == Fail(Framing) ==> next.None? || !InFamily(t, e))
            && (CanCarry(rules, from, to, e) && c.Fail? ==> c == Fail(Framing))
  {
  }

  datatype Guard = Guard(finish: Option<string>, usage: Option<U.Usage>, tools: Tools, messageStarted: bool, contentStarted: bool)

  const Idle: Guard := Guard(None, None, NoTools, false, false)

  /** Still running with what has been sent, or refused. */
  datatype Progress = Running(guard: Guard, sent: seq<Event>) | Stopped(fault: Fault)

  datatype Setup = Setup(from: Protocol, to: Protocol, emitUsage: bool, fallbackModel: string)

  function Filled(s: Setup, e: Event): Event {
    if e.MessageStart? && e.model == "" && s.fallbackModel != "" then e.(model := s.fallbackModel) else e
  }

  function GuardEvent(rules: Rules, s: Setup, g: Guard, sent: seq<Event>, e: Event): Progress {
    if e.Error? then Stopped(Upstream)
    else if e.Finish? && e.reason != "" then
      if g.finish.Some? then Stopped(Framing) else Running(g.(finish := Some(e.reason)), sent)
    else if e.Usage? then
      var n := U.Normalize(e.usage, s.from, s.to);
      if n.None? || (s.emitUsage && n.value.write != 0 && U.HidesWrites(s.to)) then Stopped(Accounting)
      else Running(g.(usage := n), sent)
    else if g.finish.Some? then Stopped(Framing)
    else if e.MessageStart? && (g.messageStarted || g.contentStarted) then Stopped(Framing)
    else
      var h := if e.MessageStart? then g.(messageStarted := true) else g.(contentStarted := true);
      var c := GuardTools(rules, s.from, s.to, g.tools, e);
      if c.Fail? then Stopped(c.fault) else Running(h.(tools := c.tools), sent + [Filled(s, e)])
  }

  function GuardAll(rules: Rules, s: Setup, es: seq<Event>): Progress {
    if es == [] then Running(Idle, [])
    else
      var p := GuardAll(rules, s, es[..|es| - 1]);
      if p.Stopped? then p else GuardEvent(rules, s, p.guard, p.sent, es[|es| - 1])
  }

  /** The terminal events in the order the destination needs. */
  function Closing(s: Setup, g: Guard): seq<Event>
    requires g.finish.Some?
  {
    var finish := [Finish(g.finish.value)];
    var usage := if g.usage.None? then [] else [Usage(g.usage.value)];
    if s.to.OpenAIChat? then finish + (if s.emitUsage then usage else []) else usage + finish
  }

  function GuardStream(rules: Rules, s: Setup, es: seq<Event>): Progress {
    var p := GuardAll(rules, s, es);
    if p.Stopped? then p
    else if p.guard.finish.None? || p.guard.tools.active != map[] then Stopped(Framing)
    else if s.to.Anthropic? && p.guard.usage.None? then Stopped(Accounting)
    else Running(p.guard, p.sent + Closing(s, p.guard))
  }

  // ----- what a guarded stream is -----

  function Content(es: seq<Event>): seq<Event> {
    if es == [] then [] else Content(es[..|es| - 1]) + (if IsContent(es[|es| - 1]) then [es[|es| - 1]] else [])
  }

  function FillAll(s: Setup, es: seq<Event>): (r: seq<Event>)
    ensures |r| == |es| && forall i :: 0 <= i < |es| ==> r[i] == Filled(s, es[i])
  {
    seq(|es|, i requires 0 <= i < |es| => Filled(s, es[i]))
  }

  function LastUsage(es: seq<Event>): Option<U.Usage> {
    if es == [] then None
    else if es[|es| - 1].Usage? then Some(es[|es| - 1].usage) else LastUsage(es[..|es| - 1])
  }

  /** The one finish event, if there is one. */
  ghost predicate FinishesAt(es: seq<Event>, i: int) {
    && 0 <= i < |es| && IsFinish(es[i])
    && forall j :: 0 <= j < |es| && j != i ==> !IsFinish(es[j]) && (j > i ==> es[j].Usage?)
  }

  ghost predicate NoFinish(es: seq<Event>) {
    forall i :: 0 <= i < |es| ==> !IsFinish(es[i])
  }

  ghost predicate ContentSeen(s: Setup, es: seq<Event>, g: Guard, sent: seq<Event>) {
    && sent == FillAll(s, Content(es))
    && (forall i :: 0 <= i < |Content(es)| && Content(es)[i].MessageStart? ==> i == 0)
    && (g.messageStarted || g.contentStarted <==> Content(es) != [])
  }

  ghost predicate FinishSeen(es: seq<Event>, finish: Option<string>) {
    && (forall i :: 0 <= i < |es| ==> !es[i].Error?)
    && (if finish.None? then NoFinish(es) else exists i :: FinishesAt(es, i) && es[i].reason == finish.value)
  }

  ghost predicate UsageSeen(s: Setup, es: seq<Event>, usage: Option<U.Usage>) {
    var u := LastUsage(es);
    if u.None? then usage.None? else usage.Some? && usage == U.Normalize(u.value, s.from, s.to)
  }

  /** The state of a running guard, said of the events it has seen. */
  ghost predicate Seen(s: Setup, es: seq<Event>, g: Guard, sent: seq<Event>) {
    ContentSeen(s, es, g, sent) && FinishSeen(es, g.finish) && UsageSeen(s, es, g.usage)
  }

  lemma FillSnoc(s: Setup, es: seq<Event>, e: Event)
    ensures FillAll(s, es + [e]) == FillAll(s, es) + [Filled(s, e)]
  {
  }

  lemma ContentSnoc(es: seq<Event>, e: Event)
    ensures Content(es + [e]) == if IsContent(e) then Content(es) + [e] else Content(es)
    ensures LastUsage(es + [e]) == if e.Usage? then Some(e.usage) else LastUsage(es)
  {
    assert (es + [e])[..|es|] == es;
  }

  lemma FinishSnoc(es: seq<Event>, e: Event, finish: Option<string>)
    requires FinishSeen(es, finish) && !e.Error?
    ensures !IsFinish(e) && (finish.None? || e.Usage?) ==> FinishSeen(es + [e], finish)
    ensures IsFinish(e) && finish.None? ==> FinishSeen(es + [e], Some(e.reason))
  {
    var all := es + [e];
    assert forall i :: 0 <= i < |es| ==> all[i] == es[i];
    assert all[|es|] == e;
    if IsFinish(e) && finish.None? {
      assert FinishesAt(all, |es|);
    } else if finish.Some? && e.Usage? {
      var i :| FinishesAt(es, i) && es[i].reason == finish.value;
      assert FinishesAt(all, i);
    }
  }

  lemma ContentStep(s: Setup, es: seq<Event>, g: Guard, sent: seq<Event>, e: Event, h: Guard)
    requires ContentSeen(s, es, g, sent)
    ensures !IsContent(e) && h.messageStarted == g.messageStarted && h.contentStarted == g.contentStarted ==>
              ContentSeen(s, es + [e], h, sent)
    ensures IsContent(e) && (e.MessageStart? ==> !g.messageStarted && !g.contentStarted) && (h.messageStarted || h.contentStarted) ==>
              ContentSeen(s, es + [e], h, sent + [Filled(s, e)])
  {
    hide Content, FillAll;
    ContentSnoc(es, e);
    FillSnoc(s, Content(es), e);
  }

  lemma UsageStep(s: Setup, es: seq<Event>, usage: Option<U.Usage>, e: Event)
    requires UsageSeen(s, es, usage)
    ensures !e.Usage? ==> UsageSeen(s, es + [e], usage)
    ensures e.Usage? && U.Normalize(e.usage, s.from, s.to).Some? ==> UsageSeen(s, es + [e], U.Normalize(e.usage, s.from, s.to))
  {
    hide Content, LastUsage, U.Normalize;
    ContentSnoc(es, e);
  }

  lemma GuardSees(rules: Rules, s: Setup, es: seq<Event>, g: Guard, sent: seq<Event>, e: Event)
    requires Seen(s, es, g, sent) && GuardEvent(rules, s, g, sent, e).Running?
    ensures var p := GuardEvent(rules, s, g, sent, e); Seen(s, es + [e], p.guard, p.sent)
  {
    hide ContentSeen, FinishSeen, UsageSeen, GuardTools, Filled, U.Normalize;
    FinishSnoc(es, e, g.finish);
    ContentStep(s, es, g, sent, e, GuardEvent(rules, s, g, sent, e).guard);
    UsageStep(s, es, g.usage, e);
  }

  lemma {:induction false} GuardAllSees(rules: Rules, s: Setup, es: seq<Event>)
    ensures var p := GuardAll(rules, s, es); p.Running? ==> Seen(s, es, p.guard, p.sent)
  {
    hide GuardEvent, Seen;
    if es == [] {
      IdleSees(s);
    } else {
      var init, last := es[..|es| - 1], es[|es| - 1];
      assert es == init + [last];
      GuardAllSees(rules, s, init);
      var p := GuardAll(rules, s, init);
      if p.Running? && GuardEvent(rules, s, p.guard, p.sent, last).Running? {
        GuardSees(rules, s, init, p.guard, p.sent, last);
      }
    }
  }

  lemma IdleSees(s: Setup)
    ensures Seen(s, [], Idle, [])
  {
  }

  /** The last usage report, converted for the destination. */
  ghost function LastReport(s: Setup, es: seq<Event>): seq<Event> {
    var u := LastUsage(es);
    if u.None? then []
    else
      var n := U.Normalize(u.value, s.from, s.to);
      if n.None? then [] else [Usage(n.value)]
  }

  /** A start without a model takes the fallback, if there is one; nothing else changes. */
  ghost predicate SentAs(s: Setup, was: Event, now: Event) {
    now == if was.MessageStart? && was.model == "" && s.fallbackModel != "" then MessageStart(was.id, s.fallbackModel) else was
  }

  /**
   A stream that passes: no error, one finish with nothing but usage after it, a message start
   only first. What is sent is the content in order, unchanged but for a missing start model, and
   then, for Chat Completions, the finish and the last report where usage is wanted; for every
   other destination the last report and the finish.
   */
  lemma GuardedStream(rules: Rules, s: Setup, es: seq<Event>)
    requires GuardStream(rules, s, es).Running?
    ensures var c, sent := Content(es), GuardStream(rules, s, es).sent;
            && |c| <= |sent| && (forall k :: 0 <= k < |c| ==> SentAs(s, c[k], sent[k]))
            && exists i :: FinishesAt(es, i)
                 && sent[|c|..] == if s.to.OpenAIChat? then [Finish(es[i].reason)] + (if s.emitUsage then LastReport(s, es) else [])
                                   else LastReport(s, es) + [Finish(es[i].reason)]
    ensures LastUsage(es).Some? ==> U.Normalize(LastUsage(es).value, s.from, s.to).Some?
    ensures forall i :: 0 <= i < |es| ==> !es[i].Error?
    ensures forall i :: 0 <= i < |Content(es)| && Content(es)[i].MessageStart? ==> i == 0
    ensures s.to.Anthropic? ==> LastUsage(es).Some?
  {
    hide GuardAll, Content, LastUsage, U.Normalize;
    GuardAllSees(rules, s, es);
    var p := GuardAll(rules, s, es);
    var i :| FinishesAt(es, i) && es[i].reason == p.guard.finish.value;
    var c, sent := Content(es), GuardStream(rules, s, es).sent;
    assert sent[..|c|] == FillAll(s, c) && sent[|c|..] == Closing(s, p.guard);
    assert forall k :: 0 <= k < |c| ==> sent[k] == sent[..|c|][k] == Filled(s, c[k]);
  }

  // ----- tool calls in a guarded stream -----

  predicate Starts(e: Event, k: int) {
    e.ToolStart? && e.index == k
  }

  predicate Ends(e: Event, k: int) {
    e.ToolEnd? && e.index == k
  }

  predicate Feeds(e: Event, k: int) {
    e.ToolDelta? && e.index == k
  }

  /** All arguments sent for a call, in order. */
  function Arguments(es: seq<Event>, k: int): string {
    if es == [] then ""
    else
      var last := es[|es| - 1];
      Arguments(es[..|es| - 1], k) + (if Feeds(last, k) then last.arguments else "")
  }

  function StartIndexes(es: seq<Event>): set<int> {
    set i | 0 <= i < |es| && es[i].ToolStart? :: es[i].index
  }

  /** The call `k` is open after `es`: started, and not ended. */
  ghost predicate IsOpen(es: seq<Event>, k: int) {
    (exists i :: 0 <= i < |es| && Starts(es[i], k)) && forall i :: 0 <= i < |es| ==> !Ends(es[i], k)
  }

  ghost predicate IsFunction(es: seq<Event>, k: int) {
    exists i :: 0 <= i < |es| && Starts(es[i], k) && !es[i].tool.Freeform?
  }

  ghost predicate StartsOnce(es: seq<Event>) {
    forall i, j :: 0 <= i < j < |es| && es[i].ToolStart? && es[j].ToolStart? ==> es[i].index != es[j].index
  }

  ghost predicate StartsLegal(es: seq<Event>) {
    forall i :: 0 <= i < |es| && es[i].ToolStart? ==> es[i].index >= 0 && !es[i].tool.OtherKind?
  }

  /** A delta or an end falls inside its open call, and a function call ends on one JSON object. */
  ghost predicate InsideAt(rules: Rules, es: seq<Event>, e: Event) {
    && (e.ToolDelta? || e.ToolEnd? ==> IsOpen(es, e.index))
    && (e.ToolEnd? && IsFunction(es, e.index) ==> rules.isObject(Arguments(es, e.index)))
  }

  ghost predicate Inside(rules: Rules, es: seq<Event>) {
    forall i :: 0 <= i < |es| ==> InsideAt(rules, es[..i], es[i])
  }

  /** The discipline of tool calls, said of the whole trace. */
  ghost predicate Disciplined(rules: Rules, es: seq<Event>) {
    StartsOnce(es) && |StartIndexes(es)| <= 128 && StartsLegal(es) && Inside(rules, es)
  }

  /** The bytes of function arguments. */
  ghost function FunctionBytes(es: seq<Event>): nat {
    if es == [] then 0
    else
      var init, last := es[..|es| - 1], es[|es| - 1];
      FunctionBytes(init) + (if last.ToolDelta? && IsFunction(init, last.index) then |last.arguments| else 0)
  }

  /** The tracked state, said of the events tracked. */
  ghost predicate Tracks(es: seq<Event>, t: Tools) {
    && t.seen == StartIndexes(es)
    && (forall k :: k in t.active <==> IsOpen(es, k))
    && (forall k :: k in t.active ==> (t.active[k].tool.Freeform? <==> !IsFunction(es, k)))
    && (forall k :: k in t.active && !t.active[k].tool.Freeform? ==> t.active[k].arguments == Arguments(es, k))
    && t.bytes == FunctionBytes(es) <= MAX_FRAME_BYTES
  }

  function TrackAll(rules: Rules, es: seq<Event>): Option<Tools> {
    if es == [] then Some(NoTools)
    else
      var t := TrackAll(rules, es[..|es| - 1]);
      if t.None? then None else Track(rules, t.value, es[|es| - 1])
  }

  lemma IsOpenSnoc(es: seq<Event>, e: Event, k: int)
    ensures IsOpen(es + [e], k) <==> (IsOpen(es, k) || ((forall i :: 0 <= i < |es| ==> !Ends(es[i], k)) && Starts(e, k))) && !Ends(e, k)
  {
    hide Starts, Ends;
    var all := es + [e];
    assert all[|es|] == e;
    assert forall i :: 0 <= i < |es| ==> all[i] == es[i];
  }

  lemma IsFunctionSnoc(es: seq<Event>, e: Event, k: int)
    ensures IsFunction(es + [e], k) <==> IsFunction(es, k) || (Starts(e, k) && !e.tool.Freeform?)
  {
    var all := es + [e];
    assert all[|es|] == e;
    assert forall i :: 0 <= i < |es| ==> all[i] == es[i];
  }

  lemma OpenSnoc(es: seq<Event>, e: Event, k: int)
    ensures IsOpen(es + [e], k) <==> (IsOpen(es, k) || ((forall i :: 0 <= i < |es| ==> !Ends(es[i], k)) && Starts(e, k))) && !Ends(e, k)
    ensures IsFunction(es + [e], k) <==> IsFunction(es, k) || (Starts(e, k) && !e.tool.Freeform?)
    ensures Arguments(es + [e], k) == Arguments(es, k) + (if Feeds(e, k) then e.arguments else "")
  {
    hide IsOpen, IsFunction, Ends;
    IsOpenSnoc(es, e, k);
    IsFunctionSnoc(es, e, k);
    assert (es + [e])[..|es|] == es;
  }

  lemma StartSnoc(es: seq<Event>, e: Event)
    ensures StartIndexes(es + [e]) == StartIndexes(es) + (if e.ToolStart? then {e.index} else {})
    ensures FunctionBytes(es + [e]) == FunctionBytes(es) + (if e.ToolDelta? && IsFunction(es, e.index) then |e.arguments| else 0)
  {
    var all := es + [e];
    assert all[..|es|] == es && all[|es|] == e;
    assert forall i :: 0 <= i < |es| ==> all[i] == es[i];
  }

  /** An index that never started has no arguments, is no function, and has not ended in a disciplined trace. */
  lemma {:induction false} NeverStarted(rules: Rules, es: seq<Event>, k: int)
    requires Disciplined(rules, es) && k !in StartIndexes(es)
    ensures !IsFunction(es, k) && Arguments(es, k) == "" && forall i :: 0 <= i < |es| ==> !Ends(es[i], k)
  {
    hide Disciplined;
    forall i | 0 <= i < |es| ensures !Ends(es[i], k) && !Feeds(es[i], k) {
      NotTouched(rules, es, k, i);
    }
    NoArguments(es, k);
  }

  lemma NotTouched(rules: Rules, es: seq<Event>, k: int, i: nat)
    requires Disciplined(rules, es) && k !in StartIndexes(es) && i < |es|
    ensures !Ends(es[i], k) && !Feeds(es[i], k) && !Starts(es[i], k)
  {
  }

  lemma {:induction false} NoArguments(es: seq<Event>, k: int)
    requires forall i :: 0 <= i < |es| ==> !Feeds(es[i], k)
    ensures Arguments(es, k) == ""
  {
    if es != [] {
      NoArguments(es[..|es| - 1], k);
    }
  }

  /** What a disciplined trace admits next. */
  ghost predicate Admits(rules: Rules, es: seq<Event>, e: Event) {
    match e
    case ToolStart(index, _, _, tool, _) =>
      index !in StartIndexes(es) && |StartIndexes(es)| < MAX_TOOL_CALLS && index >= 0 && !tool.OtherKind?
    case ToolDelta(index, _, _) => IsOpen(es, index)
    case ToolEnd(index) => IsOpen(es, index) && (IsFunction(es, index) ==> rules.isObject(Arguments(es, index)))
    case _ => true
  }

  lemma StartsOnceSnoc(es: seq<Event>, e: Event)
    ensures StartsOnce(es + [e]) <==> StartsOnce(es) && (e.ToolStart? ==> e.index !in StartIndexes(es))
    ensures StartsLegal(es + [e]) <==> StartsLegal(es) && (e.ToolStart? ==> e.index >= 0 && !e.tool.OtherKind?)
  {
    var all, n := es + [e], |es|;
    assert forall i :: 0 <= i < n ==> all[i] == es[i];
    assert all[n] == e;
    if StartsOnce(all) && e.ToolStart? {
      forall i | 0 <= i < n && es[i].ToolStart? ensures es[i].index != e.index {
        assert all[i] == es[i];
      }
    }
  }

  lemma InsideSnoc(rules: Rules, es: seq<Event>, e: Event)
    ensures Inside(rules, es + [e]) <==> Inside(rules, es) && InsideAt(rules, es, e)
  {
    hide InsideAt;
    var all, n := es + [e], |es|;
    assert forall i :: 0 <= i < n ==> all[i] == es[i] && all[..i] == es[..i];
    assert all[n] == e && all[..n] == es;
  }

  lemma DisciplinedSnoc(rules: Rules, es: seq<Event>, e: Event)
    ensures Disciplined(rules, es + [e]) <==> Disciplined(rules, es) && Admits(rules, es, e)
  {
    hide StartsOnce, StartsLegal, Inside, StartIndexes, IsOpen, IsFunction, Arguments;
    StartsOnceSnoc(es, e);
    InsideSnoc(rules, es, e);
    StartSnoc(es, e);
    Fewer(StartIndexes(es), StartIndexes(es + [e]));
  }

  lemma {:induction false} Fewer(a: set<int>, b: set<int>)
    requires a <= b
    ensures |a| <= |b|
  {
    assert b == a + (b - a);
  }

  lemma TrackAdmits(rules: Rules, es: seq<Event>, t: Tools, e: Event)
    requires Tracks(es, t)
    ensures Track(rules, t, e).Some? <==>
              Admits(rules, es, e) && (e.ToolDelta? && IsFunction(es, e.index) ==> t.bytes + |e.arguments| <= MAX_FRAME_BYTES)
  {
    hide IsOpen, IsFunction, Arguments, FunctionBytes;
  }

  lemma TrackKeepsActive(rules: Rules, es: seq<Event>, t: Tools, e: Event, k: int)
    requires Tracks(es, t) && Disciplined(rules, es) && Track(rules, t, e).Some?
    ensures var n := Track(rules, t, e).value;
            && (k in n.active <==> IsOpen(es + [e], k))
            && (k in n.active ==> (n.active[k].tool.Freeform? <==> !IsFunction(es + [e], k)))
            && (k in n.active && !n.active[k].tool.Freeform? ==> n.active[k].arguments == Arguments(es + [e], k))
  {
    hide Disciplined, IsFunction, Arguments, FunctionBytes, StartIndexes;
    OpenSnoc(es, e, k);
    if Starts(e, k) {
      NeverStarted(rules, es, k);
    }
    if k in t.active {
      assert t.active[k].arguments + "" == t.active[k].arguments && Arguments(es, k) + "" == Arguments(es, k);
    }
  }

  lemma TrackStep(rules: Rules, es: seq<Event>, t: Tools, e: Event)
    requires Tracks(es, t) && Disciplined(rules, es) && Track(rules, t, e).Some?
    ensures Tracks(es + [e], Track(rules, t, e).value)
  {
    hide Disciplined, IsOpen, IsFunction, Arguments, FunctionBytes;
    StartSnoc(es, e);
    var n := Track(rules, t, e).value;
    forall k ensures k in n.active <==> IsOpen(es + [e], k) {
      TrackKeepsActive(rules, es, t, e, k);
    }
    forall k | k in n.active ensures n.active[k].tool.Freeform? <==> !IsFunction(es + [e], k) {
      TrackKeepsActive(rules, es, t, e, k);
    }
    forall k | k in n.active && !n.active[k].tool.Freeform? ensures n.active[k].arguments == Arguments(es + [e], k) {
      TrackKeepsActive(rules, es, t, e, k);
    }
  }

  /** Tracking succeeds exactly on the disciplined traces whose function arguments are within the limit. */
  lemma {:induction false} TracksExactly(rules: Rules, es: seq<Event>)
    ensures TrackAll(rules, es).Some? <==> Disciplined(rules, es) && FunctionBytes(es) <= 2_097_152
    ensures TrackAll(rules, es).Some? ==> Tracks(es, TrackAll(rules, es).value)
  {
    hide Track, Disciplined, Tracks, Admits, IsFunction, StartIndexes, IsOpen, Arguments;
    if es == [] {
      NothingTracked(rules);
    } else {
      var init, last := es[..|es| - 1], es[|es| - 1];
      assert es == init + [last];
      TracksExactly(rules, init);
      StartSnoc(init, last);
      DisciplinedSnoc(rules, init, last);
      var t := TrackAll(rules, init);
      if t.Some? {
        TrackedBytes(init, t.value);
        TrackAdmits(rules, init, t.value, last);
        if Track(rules, t.value, last).Some? {
          TrackStep(rules, init, t.value, last);
        }
      }
    }
  }

  lemma TrackedBytes(es: seq<Event>, t: Tools)
    requires Tracks(es, t)
    ensures t.bytes == FunctionBytes(es) <= MAX_FRAME_BYTES
  {
  }

  lemma NothingTracked(rules: Rules)
    ensures Disciplined(rules, []) && Tracks([], NoTools) && FunctionBytes([]) == 0
  {
  }

  /** A running guard has tracked its content. */
  lemma {:induction false} GuardFollows(rules: Rules, s: Setup, es: seq<Event>)
    ensures var p := GuardAll(rules, s, es); p.Running? ==> TrackAll(rules, Content(es)) == Some(p.guard.tools)
  {
    hide Track, GuardTools, Content, U.Normalize, Filled;
    if es == [] {
      NoContent();
    } else {
      var init, last := es[..|es| - 1], es[|es| - 1];
      assert es == init + [last];
      GuardFollows(rules, s, init);
      ContentSnoc(init, last);
      var p := GuardAll(rules, s, init);
      if p.Running? && IsContent(last) {
        GuardTracks(rules, s.from, s.to, p.guard.tools, last);
        assert (Content(init) + [last])[..|Content(init)|] == Content(init);
      }
    }
  }

  lemma NoContent()
    ensures Content([]) == []
  {
  }

  /** The delta at `i`, if there is one, carries the payload family of the call it belongs to. */
  ghost predicate OnFamily(es: seq<Event>, i: nat)
    requires i < |es|
  {
    es[i].ToolDelta? ==>
      if IsFunction(es[..i], es[i].index) then es[i].input.None? else es[i].input.Some? && es[i].arguments == ""
  }

  lemma FamilyMeans(es: seq<Event>, t: Tools, e: Event)
    requires Tracks(es, t) && (e.ToolDelta? ==> e.index in t.active)
    ensures InFamily(t, e) <==> OnFamily(es + [e], |es|)
  {
    hide IsFunction, IsOpen, Arguments, FunctionBytes;
    assert (es + [e])[..|es|] == es && (es + [e])[|es|] == e;
  }

  lemma OnFamilySnoc(es: seq<Event>, e: Event, i: nat)
    requires i < |es|
    ensures OnFamily(es + [e], i) <==> OnFamily(es, i)
  {
    assert (es + [e])[..i] == es[..i];
  }

  /** A running guard has seen only deltas of their calls' families. */
  lemma {:induction false} GuardedFamilies(rules: Rules, s: Setup, es: seq<Event>)
    ensures GuardAll(rules, s, es).Running? ==> forall i :: 0 <= i < |Content(es)| ==> OnFamily(Content(es), i)
  {
    hide GuardTools, Content, U.Normalize, Filled, OnFamily, Tracks, Disciplined, FunctionBytes, TrackAll, CanCarry;
    if es == [] {
      NoContent();
    } else {
      var init, last := es[..|es| - 1], es[|es| - 1];
      assert es == init + [last];
      GuardedFamilies(rules, s, init);
      ContentSnoc(init, last);
      var p, c := GuardAll(rules, s, init), Content(init);
      if p.Running? && IsContent(last) && GuardAll(rules, s, es).Running? {
        GuardFollows(rules, s, init);
        TracksExactly(rules, c);
        GuardTracks(rules, s.from, s.to, p.guard.tools, last);
        assert last.ToolDelta? ==> last.index in p.guard.tools.active;
        FamilyMeans(c, p.guard.tools, last);
        forall i | 0 <= i < |c + [last]| ensures OnFamily(c + [last], i) {
          if i < |c| {
            OnFamilySnoc(c, last, i);
          }
        }
      }
    }
  }

  /**
   In a stream that passes, every tool index starts once, its events fall between its start and
   its end, every delta carries its call's payload family, every call ends, a function call's
   arguments are one JSON object, and the number of calls and the bytes of their arguments are
   within bounds.
   */
  lemma GuardedTools(rules: Rules, s: Setup, es: seq<Event>)
    requires GuardStream(rules, s, es).Running?
    ensures Disciplined(rules, Content(es)) && FunctionBytes(Content(es)) <= 2_097_152
    ensures forall i :: 0 <= i < |Content(es)| ==> OnFamily(Content(es), i)
    ensures forall k :: !IsOpen(Content(es), k)
  {
    hide Disciplined, TrackAll, IsOpen, FunctionBytes, Content, GuardAll, OnFamily;
    GuardedFamilies(rules, s, es);
    GuardFollows(rules, s, es);
    TracksExactly(rules, Content(es));
    var p := GuardAll(rules, s, es);
    forall k ensures !IsOpen(Content(es), k) {
      assert k !in p.guard.tools.active;
    }
  }

  // ----- the loop -----

  lemma {:induction false} StoppedStays(rules: Rules, s: Setup, es: seq<Event>, n: nat)
    requires n <= |es| && GuardAll(rules, s, es[..n]).Stopped?
    ensures GuardAll(rules, s, es) == GuardAll(rules, s, es[..n])
    decreases |es|
  {
    hide GuardEvent;
    if n == |es| {
      assert es[..n] == es;
    } else {
      var init := es[..|es| - 1];
      assert init[..n] == es[..n];
      StoppedStays(rules, s, init, n);
    }
  }

  method GuardEvents(rules: Rules, s: Setup, es: seq<Event>) returns (result: Progress)
    ensures result == GuardStream(rules, s, es)
  {
    hide GuardTools;
    var finish: Option<string>, usage: Option<U.Usage>, tools := None, None, NoTools;
    var messageStarted, contentStarted := false, false;
    var sent: seq<Event> := [];
    for i := 0 to |es|
      invariant GuardAll(rules, s, es[..i]) == Running(Guard(finish, usage, tools, messageStarted, contentStarted), sent)
    {
      assert es[..i + 1][..i] == es[..i];
      var e := es[i];
      var fault: Option<Fault> := None;
      if e.Error? {
        fault := Some(Upstream);
      } else if e.Finish? && e.reason != "" {
        if finish.Some? {
          fault := Some(Framing);
        } else {
          finish := Some(e.reason);
        }
      } else if e.Usage? {
        var converted := U.Normalize(e.usage, s.from, s.to);
        if converted.None? || (s.emitUsage && converted.value.write != 0 && U.HidesWrites(s.to)) {
          fault := Some(Accounting);
        } else {
          usage := converted;
        }
      } else if finish.Some? || (e.MessageStart? && (messageStarted || contentStarted)) {
        fault := Some(Framing);
      } else {
        var checked := GuardTools(rules, s.from, s.to, tools, e);
        if checked.Fail? {
          fault := Some(checked.fault);
        } else {
          messageStarted, contentStarted := messageStarted || e.MessageStart?, contentStarted || !e.MessageStart?;
          tools := checked.tools;
          sent := sent + [Filled(s, e)];
        }
      }
      if fault.Some? {
        StoppedStays(rules, s, es, i + 1);
        return Stopped(fault.value);
      }
    }
    assert es[..|es|] == es;
    if finish.None? || tools.active != map[] {
      return Stopped(Framing);
    }
    if s.to.Anthropic? && usage.None? {
      return Stopped(Accounting);
    }
    var guard := Guard(finish, usage, tools, messageStarted, contentStarted);
    if s.to.OpenAIChat? {
      sent := sent + ([Finish(finish.value)] + (if s.emitUsage && usage.Some? then [Usage(usage.value)] else []));
    } else {
      sent := sent + ((if usage.Some? then [Usage(usage.value)] else []) + [Finish(finish.value)]);
    }
    return Running(guard, sent);
  }
}
