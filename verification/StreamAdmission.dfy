/**
 Exactly which streams the bridge lets through: the sources its parser finishes, with what it makes
 of them (internal/bridge/stream.go:43-211), and the streams its guard passes
 (internal/bridge/stream.go:302-419, 435-509). Both are said of the events alone.
 */
module StreamAdmission {
  import opened Wrappers
  import opened StreamGuard
  import opened StreamParse
  import U = BridgeUsage

  // ----- one finish, starts first -----

  /** No error, and after a finish nothing but usage. */
  ghost predicate Orderly(es: seq<Event>) {
    (forall i :: 0 <= i < |es| ==> !es[i].Error?) && (NoFinish(es) || exists i :: FinishesAt(es, i))
  }

  ghost predicate StartsFirst(content: seq<Event>) {
    forall i :: 0 <= i < |content| && content[i].MessageStart? ==> i == 0
  }

  lemma OrderlySnoc(es: seq<Event>, e: Event)
    ensures Orderly(es + [e]) <==> Orderly(es) && !e.Error? && (e.Usage? || NoFinish(es))
    ensures NoFinish(es + [e]) <==> NoFinish(es) && !IsFinish(e)
  {
    hide IsFinish;
    var all := es + [e];
    assert all[|es|] == e && forall i :: 0 <= i < |es| ==> all[i] == es[i];
    if Orderly(all) {
      assert forall i :: 0 <= i < |es| ==> !all[i].Error?;
      if !NoFinish(es) {
        var i :| FinishesAt(all, i);
        FinishIsInside(es, e, i);
      }
    }
    if Orderly(es) && !e.Error? && (e.Usage? || NoFinish(es)) {
      OrderlyMore(es, e);
    }
  }

  /** A second finish, or content after one, would break the order. */
  lemma FinishIsInside(es: seq<Event>, e: Event, i: int)
    requires !NoFinish(es) && FinishesAt(es + [e], i)
    ensures e.Usage? && FinishesAt(es, i)
  {
    var all := es + [e];
    assert all[|es|] == e && forall j :: 0 <= j < |es| ==> all[j] == es[j];
    var k :| 0 <= k < |es| && IsFinish(es[k]);
    assert IsFinish(all[k]);
  }

  lemma OrderlyMore(es: seq<Event>, e: Event)
    requires Orderly(es) && !e.Error? && (e.Usage? || NoFinish(es))
    ensures Orderly(es + [e])
  {
    var all := es + [e];
    assert all[|es|] == e && forall j :: 0 <= j < |es| ==> all[j] == es[j];
    if NoFinish(es) {
      if IsFinish(e) { assert FinishesAt(all, |es|); }
    } else {
      var i :| FinishesAt(es, i);
      assert FinishesAt(all, i);
    }
  }

  lemma StartsFirstSnoc(c: seq<Event>, e: Event)
    ensures StartsFirst(c + [e]) <==> StartsFirst(c) && (e.MessageStart? ==> c == [])
  {
    var all := c + [e];
    assert all[|c|] == e && forall i :: 0 <= i < |c| ==> all[i] == c[i];
  }

  // ----- what the guard passes -----

  /** The report converts, and where it is wanted the destination has a place for its cache writes. */
  ghost predicate Counted(s: Setup, u: U.Usage) {
    var n := U.Normalize(u, s.from, s.to);
    n.Some? && (s.emitUsage && (s.to.OpenAIChat? || s.to.Gemini? || s.to.GeminiCodeAssist?) ==> n.value.write == 0)
  }

  ghost predicate AllCounted(s: Setup, es: seq<Event>) {
    forall i :: 0 <= i < |es| && es[i].Usage? ==> Counted(s, es[i].usage)
  }

  lemma CountedSnoc(s: Setup, es: seq<Event>, e: Event)
    ensures AllCounted(s, es + [e]) <==> AllCounted(s, es) && (e.Usage? ==> Counted(s, e.usage))
  {
    hide Counted;
    var all := es + [e];
    assert all[|es|] == e && forall i :: 0 <= i < |es| ==> all[i] == es[i];
  }

  /** What can be said of every beginning of a stream that passes. */
  ghost predicate Admissible(rules: Rules, s: Setup, es: seq<Event>) {
    && Orderly(es) && AllCounted(s, es) && StartsFirst(Content(es))
    && Clean(rules, s, Content(es)) && TrackAll(rules, Content(es)).Some?
  }

  /** One event more, judged by what the guard keeps. */
  ghost predicate Next(rules: Rules, s: Setup, es: seq<Event>, e: Event) {
    && !e.Error? && (e.Usage? || NoFinish(es)) && (e.Usage? ==> Counted(s, e.usage))
    && (IsContent(e) ==>
          && (e.MessageStart? ==> Content(es) == [])
          && CanCarry(rules, s.from, s.to, e) && OnFamily(Content(es) + [e], |Content(es)|)
          && TrackAll(rules, Content(es)).Some? && Track(rules, TrackAll(rules, Content(es)).value, e).Some?)
  }

  lemma AdmissibleSnoc(rules: Rules, s: Setup, es: seq<Event>, e: Event)
    ensures Admissible(rules, s, es + [e]) <==> Admissible(rules, s, es) && Next(rules, s, es, e)
  {
    hide Orderly, AllCounted, StartsFirst, Clean, TrackAll, Track, CanCarry, OnFamily, Content, Counted, NoFinish;
    OrderlySnoc(es, e);
    CountedSnoc(s, es, e);
    ContentSnoc(es, e);
    if IsContent(e) {
      StartsFirstSnoc(Content(es), e);
      CleanSnoc(rules, s, Content(es), e);
      TrackSnoc(rules, Content(es), e);
    }
  }

  lemma GuardNext(rules: Rules, s: Setup, es: seq<Event>, g: Guard, sent: seq<Event>, e: Event)
    requires Seen(s, es, g, sent) && TrackAll(rules, Content(es)) == Some(g.tools)
    ensures GuardEvent(rules, s, g, sent, e).Running? <==> Next(rules, s, es, e)
  {
    hide Track, GuardTools, TrackAll, Content, CanCarry, OnFamily, U.Normalize, Disciplined, Tracks, LastUsage, InFamily;
    FinishKept(es, g.finish);
    if IsContent(e) {
      GuardTracks(rules, s.from, s.to, g.tools, e);
      TracksExactly(rules, Content(es));
      if Track(rules, g.tools, e).Some? {
        TrackedDelta(rules, g.tools, e);
        FamilyMeans(Content(es), g.tools, e);
      }
    }
  }

  lemma FinishKept(es: seq<Event>, finish: Option<string>)
    requires FinishSeen(es, finish)
    ensures finish.None? <==> NoFinish(es)
  {
  }

  lemma {:induction false} GuardGoesOn(rules: Rules, s: Setup, es: seq<Event>)
    ensures GuardAll(rules, s, es).Running? <==> Admissible(rules, s, es)
    decreases |es|
  {
    hide GuardEvent, Admissible, Seen, Next, TrackAll;
    if es == [] {
      NothingAdmitted(rules, s);
    } else {
      var init, last := es[..|es| - 1], es[|es| - 1];
      assert es == init + [last];
      GuardGoesOn(rules, s, init);
      AdmissibleSnoc(rules, s, init, last);
      var p := GuardAll(rules, s, init);
      if p.Running? {
        GuardAllSees(rules, s, init);
        GuardFollows(rules, s, init);
        GuardNext(rules, s, init, p.guard, p.sent, last);
      }
    }
  }

  lemma NothingAdmitted(rules: Rules, s: Setup)
    ensures Admissible(rules, s, [])
  {
  }

  /** The streams that pass. */
  ghost predicate Passable(rules: Rules, s: Setup, es: seq<Event>) {
    && (forall i :: 0 <= i < |es| ==> !es[i].Error?) && (exists i :: FinishesAt(es, i))
    && AllCounted(s, es) && (s.to.Anthropic? ==> exists i :: 0 <= i < |es| && es[i].Usage?)
    && var c := Content(es);
       && StartsFirst(c)
       && (forall i :: 0 <= i < |c| ==> CanCarry(rules, s.from, s.to, c[i]) && OnFamily(c, i))
       && Disciplined(rules, c) && FunctionBytes(c) <= 2_097_152 && forall k :: !IsOpen(c, k)
  }

  lemma {:induction false} HasUsage(es: seq<Event>)
    ensures LastUsage(es).Some? <==> exists i :: 0 <= i < |es| && es[i].Usage?
    decreases |es|
  {
    if es != [] {
      var n := |es| - 1;
      HasUsage(es[..n]);
      assert forall i :: 0 <= i < n ==> es[..n][i] == es[i];
    }
  }

  /**
   The guard passes a stream exactly when no error is in it, it has one finish with only usage
   after it, every report converts, a message start is only first, both protocols can carry every
   event, the tool calls are disciplined, of the right families, within bounds and all ended, and
   an Anthropic destination has usage to report.
   */
  lemma PassesExactly(rules: Rules, s: Setup, es: seq<Event>)
    ensures GuardStream(rules, s, es).Running? <==> Passable(rules, s, es)
  {
    hide GuardAll, TrackAll, Content, CanCarry, OnFamily, Disciplined, FunctionBytes, IsOpen, LastUsage, AllCounted, StartsFirst, Closing, FinishesAt;
    GuardGoesOn(rules, s, es);
    TracksExactly(rules, Content(es));
    HasUsage(es);
    var p := GuardAll(rules, s, es);
    if p.Running? {
      GuardAllSees(rules, s, es);
      GuardFollows(rules, s, es);
      FinishKept(es, p.guard.finish);
      NoFinishOr(es);
      OpenOrNot(Content(es), p.guard.tools);
    } else {
      NoFinishOr(es);
    }
  }

  lemma NoFinishOr(es: seq<Event>)
    ensures !(NoFinish(es) && exists i :: FinishesAt(es, i))
  {
  }

  lemma OpenOrNot(c: seq<Event>, t: Tools)
    requires Tracks(c, t)
    ensures t.active == map[] <==> forall k :: !IsOpen(c, k)
  {
    hide IsOpen, IsFunction, Arguments, FunctionBytes;
    if forall k :: !IsOpen(c, k) {
      assert forall k :: k !in t.active;
    }
  }

  // ----- what the parser finishes -----

  /** The message's identity: its start's own, or the generated one. */
  function MessageId(names: Names, content: seq<Event>): string {
    if content != [] && content[0].MessageStart? && content[0].id != "" then content[0].id else names.response
  }

  /** The event with a missing identity filled in. */
  function Named(names: Names, id: string, e: Event): Event {
    match e
    case MessageStart("", model) => MessageStart(names.response, model)
    case ToolStart(index, "", name, tool, signature) => ToolStart(index, names.call(id, index), name, tool, signature)
    case _ => e
  }

  function NamedAll(names: Names, id: string, es: seq<Event>): (r: seq<Event>)
    ensures |r| == |es| && forall i :: 0 <= i < |es| ==> r[i] == Named(names, id, es[i])
  {
    seq(|es|, i requires 0 <= i < |es| => Named(names, id, es[i]))
  }

  /** A start for content that has none. */
  function Opening(names: Names, content: seq<Event>): seq<Event> {
    if content != [] && !content[0].MessageStart? then [MessageStart(names.response, "")] else []
  }

  /** What the parser lets out of its content. */
  function Canonical(names: Names, content: seq<Event>): seq<Event> {
    Opening(names, content) + NamedAll(names, MessageId(names, content), content)
  }

  /** Tool identities are legal on the source's protocol and pairwise distinct. */
  ghost predicate IdsLegal(rules: Rules, from: Protocol, es: seq<Event>) {
    && (forall i :: 0 <= i < |es| && es[i].ToolStart? ==> rules.identity(from, es[i].name, es[i].id))
    && forall i, j :: 0 <= i < j < |es| && es[i].ToolStart? && es[j].ToolStart? ==> es[i].id != es[j].id
  }

  ghost function StartIds(es: seq<Event>): set<string> {
    set i | 0 <= i < |es| && es[i].ToolStart? :: es[i].id
  }

  lemma IdsLegalSnoc(rules: Rules, from: Protocol, es: seq<Event>, e: Event)
    ensures IdsLegal(rules, from, es + [e]) <==>
              IdsLegal(rules, from, es) && (e.ToolStart? ==> rules.identity(from, e.name, e.id) && e.id !in StartIds(es))
    ensures StartIds(es + [e]) == StartIds(es) + (if e.ToolStart? then {e.id} else {})
  {
    var all := es + [e];
    assert all[|es|] == e && forall i :: 0 <= i < |es| ==> all[i] == es[i];
  }

  lemma CanonicalSnoc(names: Names, c: seq<Event>, e: Event)
    ensures var sent, event := Canonical(names, c), Named(names, MessageId(names, c + [e]), e);
            Canonical(names, c + [e]) ==
              if c == [] && !e.MessageStart? then sent + [MessageStart(names.response, "")] + [event] else sent + [event]
    ensures c != [] ==> MessageId(names, c + [e]) == MessageId(names, c)
  {
    hide Named;
    var all := c + [e];
    assert all[|c|] == e && (c != [] ==> all[0] == c[0]);
    var id := MessageId(names, all);
    assert NamedAll(names, id, all) == NamedAll(names, id, c) + [Named(names, id, e)];
    if c == [] {
      assert NamedAll(names, id, c) == [] && Canonical(names, c) == [];
    }
  }

  /** What can be said of every beginning of a source that is finished. */
  ghost predicate Parsable(rules: Rules, names: Names, from: Protocol, items: seq<Native>) {
    && (forall i :: 0 <= i < |items| ==> !items[i].issue) && Orderly(Events(items))
    && var c := Content(Events(items));
       StartsFirst(c) && TrackAll(rules, Canonical(names, c)).Some? && IdsLegal(rules, from, Canonical(names, c))
  }

  /** The parser's own account of what it has let out. */
  ghost predicate Keeps(names: Names, es: seq<Event>, p: Parser, sent: seq<Event>) {
    && sent == Canonical(names, Content(es)) && p.ids == StartIds(sent)
    && (p.started <==> Content(es) != []) && (p.started ==> p.messageId == MessageId(names, Content(es)))
  }

  ghost predicate NextParses(rules: Rules, names: Names, from: Protocol, es: seq<Event>, item: Native) {
    var e, c := item.event, Content(es);
    && !item.issue && !e.Error? && (e.Usage? || NoFinish(es))
    && (IsContent(e) ==>
          && (e.MessageStart? ==> c == [])
          && TrackAll(rules, Canonical(names, c + [e])).Some? && IdsLegal(rules, from, Canonical(names, c + [e])))
  }

  lemma ParsableSnoc(rules: Rules, names: Names, from: Protocol, items: seq<Native>, item: Native)
    ensures Parsable(rules, names, from, items + [item]) <==>
              Parsable(rules, names, from, items) && NextParses(rules, names, from, Events(items), item)
  {
    hide Orderly, StartsFirst, TrackAll, IdsLegal, Content, NoFinish, Canonical;
    var es, e, all := Events(items), item.event, items + [item];
    assert Events(all) == es + [e];
    assert all[|items|] == item && forall i :: 0 <= i < |items| ==> all[i] == items[i];
    OrderlySnoc(es, e);
    ContentSnoc(es, e);
    if IsContent(e) {
      StartsFirstSnoc(Content(es), e);
      CanonicalShrinks(rules, names, from, Content(es), e);
    }
  }

  /** What holds of more content holds of less. */
  lemma CanonicalShrinks(rules: Rules, names: Names, from: Protocol, c: seq<Event>, e: Event)
    ensures TrackAll(rules, Canonical(names, c + [e])).Some? ==> TrackAll(rules, Canonical(names, c)).Some?
    ensures IdsLegal(rules, from, Canonical(names, c + [e])) ==> IdsLegal(rules, from, Canonical(names, c))
  {
    hide TrackAll, Track, IdsLegal, Canonical, Named;
    var sent, start, event := Canonical(names, c), MessageStart(names.response, ""), Named(names, MessageId(names, c + [e]), e);
    CanonicalSnoc(names, c, e);
    TrackSnoc(rules, sent, event);
    IdsLegalSnoc(rules, from, sent, event);
    TrackSnoc(rules, sent, start);
    IdsLegalSnoc(rules, from, sent, start);
    TrackSnoc(rules, sent + [start], event);
    IdsLegalSnoc(rules, from, sent + [start], event);
  }

  /** One content event, once the message has started. */
  lemma ContentParses(rules: Rules, names: Names, from: Protocol, p: Parser, sent: seq<Event>, e: Event)
    requires Let(rules, p, sent) && p.ids == StartIds(sent) && IsContent(e) && IdsLegal(rules, from, sent)
    ensures var n, event := ParseContent(rules, names, from, p, sent, e), Named(names, p.messageId, e);
            && (n.Going? <==> TrackAll(rules, sent + [event]).Some? && IdsLegal(rules, from, sent + [event]))
            && (n.Going? ==> n.sent == sent + [event] && n.parser.ids == StartIds(n.sent)
                             && n.parser.started == (p.started || e.MessageStart?)
                             && n.parser.messageId == (if e.MessageStart? then event.id else p.messageId))
  {
    hide Track, TrackAll, Led, DistinctIds, IdsLegal, StartIds;
    var event := Named(names, p.messageId, e);
    TrackSnoc(rules, sent, event);
    IdsLegalSnoc(rules, from, sent, event);
    assert StartIds(sent) + {} == StartIds(sent);
  }

  lemma OpeningKeeps(rules: Rules, names: Names, from: Protocol, sent: seq<Event>)
    ensures var start := MessageStart(names.response, "");
            && (IdsLegal(rules, from, sent + [start]) <==> IdsLegal(rules, from, sent))
            && StartIds(sent + [start]) == StartIds(sent)
  {
    hide IdsLegal, StartIds;
    IdsLegalSnoc(rules, from, sent, MessageStart(names.response, ""));
    assert StartIds(sent) + {} == StartIds(sent);
  }

  lemma EventParses(rules: Rules, names: Names, from: Protocol, es: seq<Event>, p: Parser, sent: seq<Event>, item: Native)
    requires Let(rules, p, sent) && Keeps(names, es, p, sent) && IdsLegal(rules, from, sent) && (p.finish.None? <==> NoFinish(es))
    ensures var n := ParseEvent(rules, names, from, p, sent, item);
            && (n.Going? <==> NextParses(rules, names, from, es, item))
            && (n.Going? ==> Keeps(names, es + [item.event], n.parser, n.sent) && IdsLegal(rules, from, n.sent))
  {
    hide Let, TrackAll, IdsLegal, StartIds, Content, NoFinish, Canonical, ParseContent, Named;
    var e, c := item.event, Content(es);
    ContentSnoc(es, e);
    if IsContent(e) {
      CanonicalSnoc(names, c, e);
      IdentityOf(names, c, e);
      if !e.MessageStart? && !p.started {
        FallbackLet(rules, names, p, sent);
        OpeningKeeps(rules, names, from, sent);
        ContentParses(rules, names, from, p.(started := true, messageId := names.response), sent + [MessageStart(names.response, "")], e);
      } else {
        ContentParses(rules, names, from, p, sent, e);
        NamedStart(names, p.messageId, MessageId(names, c + [e]), e);
      }
    }
  }

  lemma IdentityOf(names: Names, c: seq<Event>, e: Event)
    ensures c == [] && !e.MessageStart? ==> MessageId(names, c + [e]) == names.response
    ensures c == [] && e.MessageStart? ==> MessageId(names, c + [e]) == Named(names, MessageId(names, c + [e]), e).id
  {
    assert (c + [e])[|c|] == e;
  }

  /** A message start is named without regard to the message's identity. */
  lemma NamedStart(names: Names, a: string, b: string, e: Event)
    ensures e.MessageStart? ==> Named(names, a, e) == Named(names, b, e) && Named(names, a, e).MessageStart?
  {
  }

  lemma {:induction false} ParserGoesOn(rules: Rules, names: Names, from: Protocol, items: seq<Native>)
    ensures var p := ParseAll(rules, names, from, items);
            && (p.Going? <==> Parsable(rules, names, from, items))
            && (p.Going? ==> Keeps(names, Events(items), p.parser, p.sent) && IdsLegal(rules, from, p.sent))
    decreases |items|
  {
    hide Parsable, Keeps, ParseEvent, NextParses, IdsLegal, Let, Reads;
    if items == [] {
      NothingParsable(rules, names, from, items);
    } else {
      var init, last := items[..|items| - 1], items[|items| - 1];
      assert items == init + [last] && Events(items) == Events(init) + [last.event];
      ParserGoesOn(rules, names, from, init);
      ParsableSnoc(rules, names, from, init, last);
      var p := ParseAll(rules, names, from, init);
      if p.Going? {
        AllLet(rules, names, from, init);
        AllReads(rules, names, from, init);
        FinishRead(names, Events(init), p.parser, p.sent);
        EventParses(rules, names, from, Events(init), p.parser, p.sent, last);
      }
    }
  }

  lemma FinishRead(names: Names, es: seq<Event>, p: Parser, sent: seq<Event>)
    requires Reads(names, es, p, sent)
    ensures FinishSeen(es, p.finish) && (p.finish.None? <==> NoFinish(es))
    ensures p.usage == LastUsage(es) && (p.hadTools <==> CallsTools(Content(es)))
  {
    hide Carries, Content, LastUsage, CallsTools;
    FinishKept(es, p.finish);
  }

  lemma NothingParsable(rules: Rules, names: Names, from: Protocol, items: seq<Native>)
    requires items == []
    ensures Parsable(rules, names, from, items) && Keeps(names, Events(items), Fresh, []) && IdsLegal(rules, from, [])
  {
    assert Events(items) == [];
    assert Canonical(names, []) == [];
  }

  /** The sources that are finished. */
  ghost predicate Finishable(rules: Rules, names: Names, from: Protocol, source: Source) {
    var es := Events(source.items);
    && (forall i :: 0 <= i < |source.items| ==> !source.items[i].issue && !es[i].Error?) && !source.endIssue && source.terminal
    && (exists i :: FinishesAt(es, i)) && StartsFirst(Content(es))
    && var sent := Canonical(names, Content(es));
       && IdsLegal(rules, from, sent) && Disciplined(rules, sent) && FunctionBytes(sent) <= 2_097_152 && forall k :: !IsOpen(sent, k)
  }

  /** The finish reason, turned into a tool-call finish for Responses and Gemini sources that called tools. */
  function Ending(from: Protocol, content: seq<Event>, reason: string): string {
    if (from.OpenAIResponses? || from.Gemini? || from.GeminiCodeAssist?) && reason == "stop"
       && (exists i :: 0 <= i < |content| && content[i].ToolStart?)
    then "tool_calls" else reason
  }

  /**
   The parser finishes a source exactly when nothing in it was faulty, it ended on its own, it has
   one finish with only usage after it and a message start only first, and, with the missing
   identities filled in, its tool calls have legal and distinct identities, are disciplined, within
   bounds and all ended.
   */
  lemma FinishesExactly(rules: Rules, names: Names, from: Protocol, source: Source)
    ensures ParseStream(rules, names, from, source).Some? <==> Finishable(rules, names, from, source)
  {
    hide ParseAll, TrackAll, IdsLegal, Content, Canonical, LastUsage, Disciplined, FunctionBytes, IsOpen, StartsFirst, Let, Reads, FinishesAt, StartIds;
    hide FinalReason;
    var es, items := Events(source.items), source.items;
    ParserGoesOn(rules, names, from, items);
    TracksExactly(rules, Canonical(names, Content(es)));
    NoFinishOr(es);
    var p := ParseAll(rules, names, from, items);
    if p.Going? {
      AllReads(rules, names, from, items);
      FinishRead(names, es, p.parser, p.sent);
      AllLet(rules, names, from, items);
      LetTracks(rules, p.parser, p.sent);
      OpenOrNot(p.sent, p.parser.tools);
    }
  }

  /**
   What the parser makes of a source it finishes: the content in order with the missing identities
   filled in, a start before it if it had none, the last usage report, and the finish.
   */
  lemma FinishedIs(rules: Rules, names: Names, from: Protocol, source: Source)
    requires ParseStream(rules, names, from, source).Some?
    ensures var es := Events(source.items);
            exists i :: FinishesAt(es, i)
              && ParseStream(rules, names, from, source).value ==
                   (if Content(es) == [] then [MessageStart(names.response, "")] else Canonical(names, Content(es)))
                   + (if LastUsage(es).None? then [] else [Usage(LastUsage(es).value)])
                   + [Finish(Ending(from, Content(es), es[i].reason))]
  {
    hide ParseAll, Parsable, IdsLegal, Content, Canonical, LastUsage, Reads, StartIds;
    var es := Events(source.items);
    ParserGoesOn(rules, names, from, source.items);
    var p := ParseAll(rules, names, from, source.items);
    AllReads(rules, names, from, source.items);
    FinishRead(names, es, p.parser, p.sent);
    NothingCanonical(names);
    var i :| FinishesAt(es, i) && es[i].reason == p.parser.finish.value;
    assert p.sent + [] == p.sent && [] + [MessageStart(names.response, "")] == [MessageStart(names.response, "")];
    EndingIs(from, Content(es), es[i].reason, p.parser);
  }

  lemma EndingIs(from: Protocol, content: seq<Event>, reason: string, p: Parser)
    requires p.finish == Some(reason) && (p.hadTools <==> CallsTools(content))
    ensures FinalReason(from, p) == Ending(from, content, reason)
  {
  }

  lemma LetTracks(rules: Rules, p: Parser, sent: seq<Event>)
    requires Let(rules, p, sent)
    ensures TrackAll(rules, sent) == Some(p.tools)
  {
  }

  lemma NothingCanonical(names: Names)
    ensures Canonical(names, []) == []
  {
  }
}
