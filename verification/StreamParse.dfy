/**
 The parser of the bridge's canonical stream (internal/bridge/stream.go:24-214) and its agreement
 with the guard: of what the parser finishes without error the guard refuses, for its framing,
 exactly the streams with a tool delta of the wrong payload family, which the parser does not check.

 The native adapter's events, with the observer's verdict at each, are the input. The identities
 the parser generates are parameters.
 */
module StreamParse {
  import opened Wrappers
  import opened StreamGuard
  import U = BridgeUsage

  /** A native event, and whether the observer had found the frames unacceptable by then. */
  datatype Native = Native(event: Event, issue: bool)

  datatype Source = Source(items: seq<Native>, endIssue: bool, terminal: bool)

  /** generatedResponseID and generatedCallID. */
  datatype Names = Names(response: string, call: (string, int) -> string)

  datatype Parser = Parser(finish: Option<string>, usage: Option<U.Usage>, started: bool, messageId: string,
                           tools: Tools, ids: set<string>, hadTools: bool)

  const Fresh: Parser := Parser(None, None, false, "", NoTools, {}, false)

  datatype Parsing = Going(parser: Parser, sent: seq<Event>) | Broken

  /** Content once the message has started: identities filled in, tool calls tracked. */
  function ParseContent(rules: Rules, names: Names, from: Protocol, p: Parser, sent: seq<Event>, e: Event): Parsing {
    var event :=
      if e.MessageStart? && e.id == "" then MessageStart(names.response, e.model)
      else if e.ToolStart? && e.id == "" then ToolStart(e.index, names.call(p.messageId, e.index), e.name, e.tool, e.signature)
      else e;
    var tools := Track(rules, p.tools, event);
    if tools.None? then Broken
    else if event.ToolStart? then
      if !rules.identity(from, event.name, event.id) || event.id in p.ids then Broken
      else Going(p.(tools := tools.value, ids := p.ids + {event.id}, hadTools := true), sent + [event])
    else if event.MessageStart? then Going(p.(started := true, messageId := event.id), sent + [event])
    else Going(p.(tools := tools.value), sent + [event])
  }

  function ParseEvent(rules: Rules, names: Names, from: Protocol, p: Parser, sent: seq<Event>, item: Native): Parsing {
    var e := item.event;
    if item.issue || e.Error? then Broken
    else if e.Finish? && e.reason != "" then if p.finish.Some? then Broken else Going(p.(finish := Some(e.reason)), sent)
    else if e.Usage? then Going(p.(usage := Some(e.usage)), sent)
    else if p.finish.Some? || (e.MessageStart? && p.started) then Broken
    else if !e.MessageStart? && !p.started then
      ParseContent(rules, names, from, p.(started := true, messageId := names.response), sent + [MessageStart(names.response, "")], e)
    else ParseContent(rules, names, from, p, sent, e)
  }

  function ParseAll(rules: Rules, names: Names, from: Protocol, items: seq<Native>): Parsing {
    if items == [] then Going(Fresh, [])
    else
      var p := ParseAll(rules, names, from, items[..|items| - 1]);
      if p.Broken? then Broken else ParseEvent(rules, names, from, p.parser, p.sent, items[|items| - 1])
  }

  function FinalReason(from: Protocol, p: Parser): string
    requires p.finish.Some?
  {
    if (from.OpenAIResponses? || U.IsGemini(from)) && p.finish.value == "stop" && p.hadTools then "tool_calls" else p.finish.value
  }

  /** The canonical stream, when the source ends well. */
  function ParseStream(rules: Rules, names: Names, from: Protocol, source: Source): Option<seq<Event>> {
    var p := ParseAll(rules, names, from, source.items);
    if p.Broken? || source.endIssue || !source.terminal || p.parser.finish.None? || p.parser.tools.active != map[] then None
    else
      Some(p.sent
           + (if p.parser.started then [] else [MessageStart(names.response, "")])
           + (if p.parser.usage.None? then [] else [Usage(p.parser.usage.value)])
           + [Finish(FinalReason(from, p.parser))])
  }

  // ----- what the parser has let out -----

  /** Every event sent is content, and a message start is first and nowhere else. */
  ghost predicate Led(sent: seq<Event>) {
    && (sent != [] ==> sent[0].MessageStart?)
    && forall i :: 0 <= i < |sent| ==> IsContent(sent[i]) && (sent[i].MessageStart? ==> i == 0)
  }

  ghost predicate DistinctIds(sent: seq<Event>, ids: set<string>) {
    && (forall i :: 0 <= i < |sent| && sent[i].ToolStart? ==> sent[i].id in ids)
    && (forall i, j :: 0 <= i < j < |sent| && sent[i].ToolStart? && sent[j].ToolStart? ==> sent[i].id != sent[j].id)
  }

  ghost predicate Let(rules: Rules, p: Parser, sent: seq<Event>) {
    && Led(sent) && DistinctIds(sent, p.ids)
    && (p.started <==> sent != [])
    && TrackAll(rules, sent) == Some(p.tools)
    && (p.finish.Some? ==> p.finish.value != "")
  }

  lemma TrackSnoc(rules: Rules, es: seq<Event>, e: Event)
    ensures TrackAll(rules, es + [e]) == (var t := TrackAll(rules, es); if t.None? then None else Track(rules, t.value, e))
  {
    hide Track;
    assert (es + [e])[..|es|] == es;
  }

  lemma LedSnoc(sent: seq<Event>, e: Event)
    requires Led(sent) && IsContent(e) && (e.MessageStart? <==> sent == [])
    ensures Led(sent + [e])
  {
  }

  lemma IdsSnoc(sent: seq<Event>, e: Event, ids: set<string>)
    requires DistinctIds(sent, ids)
    ensures !e.ToolStart? ==> DistinctIds(sent + [e], ids)
    ensures e.ToolStart? && e.id !in ids ==> DistinctIds(sent + [e], ids + {e.id})
  {
  }

  lemma ContentLet(rules: Rules, names: Names, from: Protocol, p: Parser, sent: seq<Event>, e: Event)
    requires Let(rules, p, sent) && IsContent(e) && (e.MessageStart? <==> !p.started)
    requires ParseContent(rules, names, from, p, sent, e).Going?
    ensures var n := ParseContent(rules, names, from, p, sent, e); Let(rules, n.parser, n.sent)
  {
    hide Led, DistinctIds, TrackAll, Track;
    var n := ParseContent(rules, names, from, p, sent, e);
    var event := n.sent[|sent|];
    assert n.sent == sent + [event];
    TrackSnoc(rules, sent, event);
    IdsSnoc(sent, event, p.ids);
    LedSnoc(sent, event);
    if event.MessageStart? {
      assert Track(rules, p.tools, event) == Some(p.tools) by { NoToolEvent(rules, p.tools, event); }
    }
  }

  lemma NoToolEvent(rules: Rules, t: Tools, e: Event)
    requires e.MessageStart?
    ensures Track(rules, t, e) == Some(t)
  {
  }

  /** Starting the message for content that came without a start. */
  lemma FallbackLet(rules: Rules, names: Names, p: Parser, sent: seq<Event>)
    requires Let(rules, p, sent) && !p.started
    ensures Let(rules, p.(started := true, messageId := names.response), sent + [MessageStart(names.response, "")])
  {
    hide Led, DistinctIds, TrackAll, Track;
    var e := MessageStart(names.response, "");
    TrackSnoc(rules, sent, e);
    NoToolEvent(rules, p.tools, e);
    IdsSnoc(sent, e, p.ids);
    LedSnoc(sent, e);
  }

  lemma EventLet(rules: Rules, names: Names, from: Protocol, p: Parser, sent: seq<Event>, item: Native)
    requires Let(rules, p, sent) && ParseEvent(rules, names, from, p, sent, item).Going?
    ensures var n := ParseEvent(rules, names, from, p, sent, item); Let(rules, n.parser, n.sent)
  {
    hide Led, DistinctIds, TrackAll, ParseContent;
    var e := item.event;
    if IsContent(e) {
      if !e.MessageStart? && !p.started {
        FallbackLet(rules, names, p, sent);
        ContentLet(rules, names, from, p.(started := true, messageId := names.response), sent + [MessageStart(names.response, "")], e);
      } else {
        ContentLet(rules, names, from, p, sent, e);
      }
    }
  }

  lemma {:induction false} AllLet(rules: Rules, names: Names, from: Protocol, items: seq<Native>)
    ensures var p := ParseAll(rules, names, from, items); p.Going? ==> Let(rules, p.parser, p.sent)
  {
    hide Let, ParseEvent;
    if items == [] {
      FreshLet(rules);
    } else {
      AllLet(rules, names, from, items[..|items| - 1]);
      var p := ParseAll(rules, names, from, items[..|items| - 1]);
      if p.Going? && ParseEvent(rules, names, from, p.parser, p.sent, items[|items| - 1]).Going? {
        EventLet(rules, names, from, p.parser, p.sent, items[|items| - 1]);
      }
    }
  }

  lemma FreshLet(rules: Rules)
    ensures Let(rules, Fresh, [])
  {
  }

  // ----- the guard on what the parser let out -----

  /** Every event so far can be carried and every delta is of its call's family. */
  ghost predicate Clean(rules: Rules, s: Setup, es: seq<Event>) {
    forall i :: 0 <= i < |es| ==> CanCarry(rules, s.from, s.to, es[i]) && OnFamily(es, i)
  }

  /** Some delta is not of its call's family, and every event before it can be carried. */
  ghost predicate Misframed(rules: Rules, s: Setup, es: seq<Event>) {
    exists i :: 0 <= i < |es| && MisframedAt(rules, s, es, i)
  }

  ghost predicate MisframedAt(rules: Rules, s: Setup, es: seq<Event>, i: nat)
    requires i < |es|
  {
    !OnFamily(es, i) && forall j :: 0 <= j < i ==> CanCarry(rules, s.from, s.to, es[j])
  }

  lemma CleanSnoc(rules: Rules, s: Setup, es: seq<Event>, e: Event)
    ensures Clean(rules, s, es + [e]) <==> Clean(rules, s, es) && CanCarry(rules, s.from, s.to, e) && OnFamily(es + [e], |es|)
  {
    hide CanCarry, OnFamily;
    var all := es + [e];
    assert forall i :: 0 <= i < |es| ==> all[i] == es[i];
    assert all[|es|] == e;
    forall i | 0 <= i < |es| ensures OnFamily(all, i) <==> OnFamily(es, i) {
      OnFamilySnoc(es, e, i);
    }
  }

  lemma MisframedSnoc(rules: Rules, s: Setup, es: seq<Event>, e: Event)
    ensures Misframed(rules, s, es + [e]) <==>
              Misframed(rules, s, es) || (!OnFamily(es + [e], |es|) && forall j :: 0 <= j < |es| ==> CanCarry(rules, s.from, s.to, es[j]))
  {
    hide CanCarry, OnFamily;
    var all := es + [e];
    assert forall i :: 0 <= i < |es| ==> all[i] == es[i];
    forall i | 0 <= i < |es| ensures MisframedAt(rules, s, all, i) <==> MisframedAt(rules, s, es, i) {
      OnFamilySnoc(es, e, i);
    }
    if Misframed(rules, s, es) {
      var i :| 0 <= i < |es| && MisframedAt(rules, s, es, i);
      assert MisframedAt(rules, s, all, i);
    }
    if !OnFamily(all, |es|) && forall j :: 0 <= j < |es| ==> CanCarry(rules, s.from, s.to, es[j]) {
      assert MisframedAt(rules, s, all, |es|);
    }
  }

  /** A clean trace is not misframed; on one that is not, the first bad event decides. */
  lemma CleanIsNotMisframed(rules: Rules, s: Setup, es: seq<Event>)
    requires Clean(rules, s, es)
    ensures !Misframed(rules, s, es)
  {
    hide CanCarry, OnFamily;
  }

  /** The guard runs, in step with the parser, exactly while the trace is clean, and has stopped for framing exactly when it is misframed. */
  ghost predicate InStep(rules: Rules, s: Setup, g: Progress, sent: seq<Event>) {
    && (g.Running? <==> Clean(rules, s, sent))
    && (g == Stopped(Framing) <==> Misframed(rules, s, sent))
    && (g.Running? ==>
          && g.guard.finish.None? && TrackAll(rules, sent) == Some(g.guard.tools)
          && (g.guard.messageStarted || g.guard.contentStarted ==> sent != []))
    && (!Clean(rules, s, sent) && !Misframed(rules, s, sent) ==>
          exists j :: 0 <= j < |sent| && !CanCarry(rules, s.from, s.to, sent[j]))
  }

  lemma GuardSnoc(rules: Rules, s: Setup, es: seq<Event>, e: Event)
    ensures GuardAll(rules, s, es + [e]) ==
              (var p := GuardAll(rules, s, es); if p.Stopped? then p else GuardEvent(rules, s, p.guard, p.sent, e))
  {
    hide GuardEvent;
    assert (es + [e])[..|es|] == es;
  }

  lemma StepInStep(rules: Rules, s: Setup, sent: seq<Event>, e: Event)
    requires Led(sent + [e]) && TrackAll(rules, sent + [e]).Some? && InStep(rules, s, GuardAll(rules, s, sent), sent)
    ensures InStep(rules, s, GuardAll(rules, s, sent + [e]), sent + [e])
  {
    hide Track, GuardTools, GuardAll, TrackAll, Filled, CanCarry, OnFamily, Clean, Misframed, InFamily, Tracks;
    var all := sent + [e];
    assert all[|sent|] == e;
    assert forall i :: 0 <= i < |sent| ==> all[i] == sent[i];
    GuardSnoc(rules, s, sent, e);
    TrackSnoc(rules, sent, e);
    CleanSnoc(rules, s, sent, e);
    MisframedSnoc(rules, s, sent, e);
    var g := GuardAll(rules, s, sent);
    if g.Running? {
      var t := g.guard.tools;
      CleanCarries(rules, s, sent);
      CleanIsNotMisframed(rules, s, sent);
      GuardTracks(rules, s.from, s.to, t, e);
      TracksExactly(rules, sent);
      TrackedDelta(rules, t, e);
      FamilyMeans(sent, t, e);
      DeltasCarry(rules, s, e, sent);
    }
  }

  lemma CleanCarries(rules: Rules, s: Setup, es: seq<Event>)
    requires Clean(rules, s, es)
    ensures forall j :: 0 <= j < |es| ==> CanCarry(rules, s.from, s.to, es[j])
  {
    hide CanCarry, OnFamily;
  }

  lemma TrackedDelta(rules: Rules, t: Tools, e: Event)
    requires Track(rules, t, e).Some?
    ensures e.ToolDelta? ==> e.index in t.active
  {
  }

  lemma DeltasCarry(rules: Rules, s: Setup, e: Event, es: seq<Event>)
    ensures !OnFamily(es + [e], |es|) ==> CanCarry(rules, s.from, s.to, e)
  {
    assert (es + [e])[|es|] == e;
  }

  lemma {:induction false} SentInStep(rules: Rules, s: Setup, sent: seq<Event>)
    requires Led(sent) && TrackAll(rules, sent).Some?
    ensures InStep(rules, s, GuardAll(rules, s, sent), sent)
  {
    hide GuardAll, InStep;
    if sent == [] {
      NothingInStep(rules, s);
    } else {
      var init, last := sent[..|sent| - 1], sent[|sent| - 1];
      assert sent == init + [last];
      assert forall i :: 0 <= i < |init| ==> init[i] == sent[i];
      SentInStep(rules, s, init);
      StepInStep(rules, s, init, last);
    }
  }

  lemma NothingInStep(rules: Rules, s: Setup)
    ensures InStep(rules, s, GuardAll(rules, s, []), [])
  {
  }

  /** The guard over the end of a parsed stream, an optional usage report and the finish, adds no framing fault. */
  lemma TailIsFramed(rules: Rules, s: Setup, sent: seq<Event>, usage: seq<Event>, reason: string)
    requires InStep(rules, s, GuardAll(rules, s, sent), sent) && reason != ""
    requires TrackAll(rules, sent).Some? && TrackAll(rules, sent).value.active == map[]
    requires |usage| <= 1 && forall i :: 0 <= i < |usage| ==> usage[i].Usage?
    ensures GuardStream(rules, s, sent + usage + [Finish(reason)]) == Stopped(Framing) <==> Misframed(rules, s, sent)
  {
    hide GuardTools, GuardAll, TrackAll, Filled, U.Normalize, Clean, Misframed;
    GuardSnoc(rules, s, sent + usage, Finish(reason));
    if usage == [] {
      assert sent + usage == sent;
    } else {
      assert usage == [usage[0]];
      GuardSnoc(rules, s, sent, usage[0]);
    }
  }

  lemma {:induction false} ContentOnly(es: seq<Event>)
    requires forall i :: 0 <= i < |es| ==> IsContent(es[i])
    ensures Content(es) == es
  {
    hide Content;
    if es == [] {
      NoContent();
    } else {
      var init, last := es[..|es| - 1], es[|es| - 1];
      assert es == init + [last];
      ContentOnly(init);
      ContentSnoc(init, last);
    }
  }

  lemma ParsedIs(sent: seq<Event>, usage: seq<Event>, reason: string)
    requires Led(sent) && reason != "" && |usage| <= 1 && forall i :: 0 <= i < |usage| ==> usage[i].Usage?
    ensures Content(sent + usage + [Finish(reason)]) == sent
  {
    hide Content;
    ContentOnly(sent);
    ContentSnoc(sent + usage, Finish(reason));
    if usage == [] {
      assert sent + usage == sent;
    } else {
      assert usage == [usage[0]];
      ContentSnoc(sent, usage[0]);
    }
  }

  /**
   Whatever the destination, a stream the parser finished without error is refused for its framing
   exactly when some delta does not carry its call's payload family and every event before it can
   be carried: the family is the one framing rule the parser does not check.
   */
  lemma ParsedIsWellFramed(rules: Rules, names: Names, s: Setup, source: Source)
    requires ParseStream(rules, names, s.from, source).Some?
    ensures var out := ParseStream(rules, names, s.from, source).value;
            GuardStream(rules, s, out) == Stopped(Framing) <==> Misframed(rules, s, Content(out))
  {
    hide ParseStream, GuardStream, GuardAll, InStep, Led, Misframed, Content, Disciplined, FunctionBytes, IsOpen, DistinctIds;
    var sent, usage, reason := ParsedShape(rules, names, s.from, source);
    ParsedIs(sent, usage, reason);
    TracksExactly(rules, sent);
    NothingActive(rules, sent);
    SentInStep(rules, s, sent);
    TailIsFramed(rules, s, sent, usage, reason);
  }

  lemma NothingActive(rules: Rules, sent: seq<Event>)
    requires TrackAll(rules, sent).Some? && Tracks(sent, TrackAll(rules, sent).value) && forall k :: !IsOpen(sent, k)
    ensures TrackAll(rules, sent).value.active == map[]
  {
    hide TrackAll, IsOpen;
    var active := TrackAll(rules, sent).value.active;
    assert forall k :: k !in active;
  }

  /**
   What the parser finishes: one message start, first; disciplined tool calls with distinct
   identities, all ended; then at most one usage report and the finish.
   */
  lemma ParsedShape(rules: Rules, names: Names, from: Protocol, source: Source)
    returns (sent: seq<Event>, usage: seq<Event>, reason: string)
    requires ParseStream(rules, names, from, source).Some?
    ensures ParseStream(rules, names, from, source).value == sent + usage + [Finish(reason)]
    ensures sent != [] && Led(sent) && reason != ""
    ensures |usage| <= 1 && forall i :: 0 <= i < |usage| ==> usage[i].Usage?
    ensures Disciplined(rules, sent) && (forall k :: !IsOpen(sent, k)) && FunctionBytes(sent) <= 2_097_152
    ensures exists ids :: DistinctIds(sent, ids)
  {
    hide ParseAll, TrackAll, Led, DistinctIds, Disciplined, FunctionBytes, IsOpen;
    var p := ParseAll(rules, names, from, source.items);
    AllLet(rules, names, from, source.items);
    sent := p.sent;
    if !p.parser.started {
      FallbackLet(rules, names, p.parser, sent);
      sent := p.sent + [MessageStart(names.response, "")];
    } else {
      assert p.sent + [] == p.sent;
    }
    usage := if p.parser.usage.None? then [] else [Usage(p.parser.usage.value)];
    reason := FinalReason(from, p.parser);
    assert DistinctIds(sent, p.parser.ids);
    TracksExactly(rules, sent);
    forall k ensures !IsOpen(sent, k) {
      assert k !in p.parser.tools.active;
    }
  }

  // ----- the loop -----

  lemma {:induction false} BrokenStays(rules: Rules, names: Names, from: Protocol, items: seq<Native>, n: nat)
    requires n <= |items| && ParseAll(rules, names, from, items[..n]).Broken?
    ensures ParseAll(rules, names, from, items).Broken?
    decreases |items|
  {
    hide ParseEvent;
    if n == |items| {
      assert items[..n] == items;
    } else {
      var init := items[..|items| - 1];
      assert init[..n] == items[..n];
      BrokenStays(rules, names, from, init, n);
    }
  }

  method ParseEvents(rules: Rules, names: Names, from: Protocol, source: Source) returns (out: Option<seq<Event>>)
    ensures out == ParseStream(rules, names, from, source)
  {
    hide ParseContent, Track;
    var p, sent := Fresh, [];
    var items := source.items;
    for i := 0 to |items|
      invariant ParseAll(rules, names, from, items[..i]) == Going(p, sent)
    {
      assert items[..i + 1][..i] == items[..i];
      var e := items[i].event;
      var next := Going(p, sent);
      if items[i].issue || e.Error? {
        next := Broken;
      } else if e.Finish? && e.reason != "" {
        next := if p.finish.Some? then Broken else Going(p.(finish := Some(e.reason)), sent);
      } else if e.Usage? {
        next := Going(p.(usage := Some(e.usage)), sent);
      } else if p.finish.Some? || (e.MessageStart? && p.started) {
        next := Broken;
      } else {
        var q, more := p, sent;
        if !e.MessageStart? && !p.started {
          q, more := p.(started := true, messageId := names.response), sent + [MessageStart(names.response, "")];
        }
        next := ParseContent(rules, names, from, q, more, e);
      }
      if next.Broken? {
        BrokenStays(rules, names, from, items, i + 1);
        return None;
      }
      p, sent := next.parser, next.sent;
    }
    assert items[..|items|] == items;
    if source.endIssue || !source.terminal || p.finish.None? || p.tools.active != map[] {
      return None;
    }
    if !p.started {
      sent := sent + [MessageStart(names.response, "")];
    } else {
      sent := sent + [];
    }
    sent := sent + (if p.usage.None? then [] else [Usage(p.usage.value)]);
    return Some(sent + [Finish(FinalReason(from, p))]);
  }

  // ----- nothing dropped, added or changed -----

  function Events(items: seq<Native>): (es: seq<Event>)
    ensures |es| == |items| && forall i :: 0 <= i < |items| ==> es[i] == items[i].event
  {
    seq(|items|, i requires 0 <= i < |items| => items[i].event)
  }

  /** The event as it came, or with only a missing identity filled in. */
  predicate Identified(names: Names, e: Event, s: Event) {
    || s == e
    || (e.MessageStart? && e.id == "" && s == MessageStart(names.response, e.model))
    || (e.ToolStart? && e.id == "" && s.ToolStart? && s == ToolStart(e.index, s.id, e.name, e.tool, e.signature))
  }

  /** One event more when the content began without a message start. */
  function Offset(content: seq<Event>): nat {
    if content != [] && !content[0].MessageStart? then 1 else 0
  }

  ghost predicate Carries(names: Names, content: seq<Event>, sent: seq<Event>) {
    && |sent| == |content| + Offset(content)
    && (Offset(content) == 1 ==> sent[0] == MessageStart(names.response, ""))
    && forall k :: 0 <= k < |content| ==> Identified(names, content[k], sent[k + Offset(content)])
  }

  predicate CallsTools(es: seq<Event>) {
    exists i :: 0 <= i < |es| && es[i].ToolStart?
  }

  lemma CallsSnoc(es: seq<Event>, e: Event)
    ensures CallsTools(es + [e]) <==> CallsTools(es) || e.ToolStart?
  {
    var all := es + [e];
    assert forall i :: 0 <= i < |es| ==> all[i] == es[i];
    assert all[|es|] == e;
  }

  /** What the parser has read of its source. */
  ghost predicate Reads(names: Names, es: seq<Event>, p: Parser, sent: seq<Event>) {
    && Carries(names, Content(es), sent) && FinishSeen(es, p.finish) && p.usage == LastUsage(es)
    && (p.started <==> sent != []) && (p.hadTools <==> CallsTools(Content(es)))
  }

  lemma CarriesSnoc(names: Names, content: seq<Event>, sent: seq<Event>, e: Event, s: Event)
    requires Carries(names, content, sent) && Identified(names, e, s)
    ensures content != [] || e.MessageStart? ==> Carries(names, content + [e], sent + [s])
    ensures content == [] && !e.MessageStart? ==> Carries(names, content + [e], sent + [MessageStart(names.response, ""), s])
  {
  }

  /** What the parser does with a content event it accepts. */
  lemma ContentSent(rules: Rules, names: Names, from: Protocol, p: Parser, sent: seq<Event>, item: Native)
    requires IsContent(item.event) && ParseEvent(rules, names, from, p, sent, item).Going?
    ensures var e, n := item.event, ParseEvent(rules, names, from, p, sent, item);
            && p.finish.None? && (e.MessageStart? ==> !p.started) && !e.Error?
            && n.sent != []
            && var s := n.sent[|n.sent| - 1];
               && Identified(names, e, s)
               && n.sent == (if !e.MessageStart? && !p.started then sent + [MessageStart(names.response, ""), s] else sent + [s])
               && n.parser.started && n.parser.finish == p.finish && n.parser.usage == p.usage
               && (n.parser.hadTools <==> p.hadTools || e.ToolStart?)
  {
    hide Track;
    var n := ParseEvent(rules, names, from, p, sent, item);
    var first, s := MessageStart(names.response, ""), n.sent[|n.sent| - 1];
    assert sent + [first] + [s] == sent + [first, s];
  }

  lemma EventReads(rules: Rules, names: Names, from: Protocol, es: seq<Event>, p: Parser, sent: seq<Event>, item: Native)
    requires Reads(names, es, p, sent) && ParseEvent(rules, names, from, p, sent, item).Going?
    ensures var n := ParseEvent(rules, names, from, p, sent, item); Reads(names, es + [item.event], n.parser, n.sent)
  {
    hide Content, LastUsage, FinishSeen, Carries, CallsTools, ParseContent, Identified;
    var e, n := item.event, ParseEvent(rules, names, from, p, sent, item);
    ContentSnoc(es, e);
    FinishSnoc(es, e, p.finish);
    if IsContent(e) {
      hide ParseEvent;
      ContentSent(rules, names, from, p, sent, item);
      CallsSnoc(Content(es), e);
      CarriesLength(names, Content(es), sent);
      CarriesSnoc(names, Content(es), sent, e, n.sent[|n.sent| - 1]);
    }
  }

  lemma CarriesLength(names: Names, content: seq<Event>, sent: seq<Event>)
    requires Carries(names, content, sent)
    ensures content == [] <==> sent == []
  {
  }

  lemma {:induction false} AllReads(rules: Rules, names: Names, from: Protocol, items: seq<Native>)
    ensures var p := ParseAll(rules, names, from, items); p.Going? ==> Reads(names, Events(items), p.parser, p.sent)
  {
    hide Reads, ParseEvent;
    if items == [] {
      NothingRead(names);
      assert Events(items) == [];
    } else {
      var init, last := items[..|items| - 1], items[|items| - 1];
      AllReads(rules, names, from, init);
      var p := ParseAll(rules, names, from, init);
      if p.Going? && ParseEvent(rules, names, from, p.parser, p.sent, last).Going? {
        EventReads(rules, names, from, Events(init), p.parser, p.sent, last);
        assert Events(items) == Events(init) + [last.event];
      }
    }
  }

  lemma NothingRead(names: Names)
    ensures Reads(names, [], Fresh, [])
  {
  }

  /**
   What the parser lets out is what the adapter produced: its content in order with only missing
   identities filled in and a missing message start put first, then its last usage report and its
   one finish, which Responses and Gemini sources turn into a tool-call finish.
   */
  lemma ParsedContent(rules: Rules, names: Names, from: Protocol, source: Source) returns (sent: seq<Event>, i: nat)
    requires ParseStream(rules, names, from, source).Some?
    ensures var es := Events(source.items);
            && FinishesAt(es, i)
            && (if Content(es) == [] then sent == [MessageStart(names.response, "")] else Carries(names, Content(es), sent))
            && ParseStream(rules, names, from, source).value ==
                 sent + (if LastUsage(es).None? then [] else [Usage(LastUsage(es).value)])
                 + [Finish(if (from.OpenAIResponses? || U.IsGemini(from)) && es[i].reason == "stop" && CallsTools(Content(es))
                           then "tool_calls" else es[i].reason)]
  {
    hide ParseAll, Content, LastUsage, Carries, CallsTools;
    AllReads(rules, names, from, source.items);
    var p, es := ParseAll(rules, names, from, source.items), Events(source.items);
    CarriesLength(names, Content(es), p.sent);
    i :| FinishesAt(es, i) && es[i].reason == p.parser.finish.value;
    sent := p.sent + (if p.parser.started then [] else [MessageStart(names.response, "")]);
    assert p.parser.started ==> sent == p.sent;
    assert !p.parser.started ==> sent == [MessageStart(names.response, "")];
  }

  // ----- the family the parser does not check -----

  /** A function call whose one delta carries input text beside its arguments. */
  function MixedCall(): seq<Event> {
    [MessageStart("m", "x"), ToolStart(0, "c", "f", Function, ""), ToolDelta(0, "{}", Some("q")), ToolEnd(0), Finish("stop")]
  }

  function Plainly(es: seq<Event>): (items: seq<Native>)
    ensures |items| == |es| && forall i :: 0 <= i < |es| ==> items[i] == Native(es[i], false)
  {
    seq(|es|, i requires 0 <= i < |es| => Native(es[i], false))
  }

  lemma ParseSnoc(rules: Rules, names: Names, from: Protocol, items: seq<Native>, n: nat)
    requires n < |items|
    ensures ParseAll(rules, names, from, items[..n + 1]) ==
              (var p := ParseAll(rules, names, from, items[..n]);
               if p.Broken? then Broken else ParseEvent(rules, names, from, p.parser, p.sent, items[n]))
  {
    hide ParseEvent;
    assert items[..n + 1][..n] == items[..n];
  }

  /** The parser after the first `n` events of that stream. */
  function MixedParser(n: nat): Parser {
    if n == 0 then Fresh
    else
      var started := Fresh.(started := true, messageId := "m");
      if n == 1 then started
      else
        var called := started.(ids := {"c"}, hadTools := true, tools := Tools(map[0 := Open(Function, "")], {0}, 0));
        if n == 2 then called
        else if n == 3 then called.(tools := Tools(map[0 := Open(Function, "{}")], {0}, 2))
        else if n == 4 then called.(tools := Tools(map[], {0}, 2))
        else called.(tools := Tools(map[], {0}, 2), finish := Some("stop"))
  }

  lemma MixedStart(rules: Rules, names: Names, from: Protocol)
    requires rules.identity(from, "f", "c")
    ensures ParseEvent(rules, names, from, MixedParser(0), [], Native(MixedCall()[0], false)) == Going(MixedParser(1), [MixedCall()[0]])
    ensures ParseEvent(rules, names, from, MixedParser(1), [MixedCall()[0]], Native(MixedCall()[1], false)) ==
              Going(MixedParser(2), [MixedCall()[0]] + [MixedCall()[1]])
  {
    assert [] + [MixedCall()[0]] == [MixedCall()[0]];
    assert {} + {0} == {0} && {} + {"c"} == {"c"};
  }

  lemma MixedEnd(rules: Rules, names: Names, from: Protocol, sent: seq<Event>)
    requires rules.isObject("{}")
    ensures ParseEvent(rules, names, from, MixedParser(2), sent, Native(MixedCall()[2], false)) == Going(MixedParser(3), sent + [MixedCall()[2]])
    ensures ParseEvent(rules, names, from, MixedParser(3), sent, Native(MixedCall()[3], false)) == Going(MixedParser(4), sent + [MixedCall()[3]])
    ensures ParseEvent(rules, names, from, MixedParser(4), sent, Native(MixedCall()[4], false)) == Going(MixedParser(5), sent)
  {
    assert "" + "{}" == "{}";
    assert map[0 := Open(Function, "")][0 := Open(Function, "{}")] == map[0 := Open(Function, "{}")];
    assert map[0 := Open(Function, "{}")] - {0} == map[];
  }

  lemma MixedParses(rules: Rules, names: Names, from: Protocol)
    requires rules.identity(from, "f", "c") && rules.isObject("{}")
    ensures ParseAll(rules, names, from, Plainly(MixedCall())) == Going(MixedParser(5), MixedCall()[..4])
  {
    hide ParseAll, ParseEvent, MixedParser;
    var es, items := MixedCall(), Plainly(MixedCall());
    NothingParsed(rules, names, from, items[..0]);
    assert MixedParser(0) == Fresh by { MixedBegins(); }
    MixedStart(rules, names, from);
    ParseSnoc(rules, names, from, items, 0);
    ParseSnoc(rules, names, from, items, 1);
    MixedEnd(rules, names, from, [es[0]] + [es[1]]);
    ParseSnoc(rules, names, from, items, 2);
    MixedEnd(rules, names, from, [es[0]] + [es[1]] + [es[2]]);
    ParseSnoc(rules, names, from, items, 3);
    MixedEnd(rules, names, from, [es[0]] + [es[1]] + [es[2]] + [es[3]]);
    ParseSnoc(rules, names, from, items, 4);
    assert items[..5] == items && es[..4] == [es[0]] + [es[1]] + [es[2]] + [es[3]];
  }

  lemma MixedBegins()
    ensures MixedParser(0) == Fresh
  {
  }

  lemma NothingParsed(rules: Rules, names: Names, from: Protocol, items: seq<Native>)
    requires items == []
    ensures ParseAll(rules, names, from, items) == Going(Fresh, [])
  {
  }

  /** The failing case: even with one protocol on both sides the parser finishes the stream and the guard refuses its framing. */
  lemma MixedCallIsRefused(rules: Rules, names: Names, s: Setup)
    requires rules.identity(s.from, "f", "c") && rules.isObject("{}") && s.from == s.to == U.OpenAIResponses
    ensures var out := ParseStream(rules, names, s.from, Source(Plainly(MixedCall()), false, true));
            out.Some? && GuardStream(rules, s, out.value) == Stopped(Framing)
  {
    hide ParseAll, GuardStream, Content;
    var source := Source(Plainly(MixedCall()), false, true);
    MixedParses(rules, names, s.from);
    var out, sent := ParseStream(rules, names, s.from, source).value, MixedCall()[..4];
    assert out == sent + [] + [Finish("tool_calls")];
    ParsedIs(sent, [], "tool_calls");
    assert Starts(sent[..2][1], 0);
    assert IsFunction(sent[..2], 0);
    assert MisframedAt(rules, s, sent, 2);
    ParsedIsWellFramed(rules, names, s, source);
  }
}
