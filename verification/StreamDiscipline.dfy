/**
 The per-event discipline of a plugin stream (internal/plugin/stream_enforce.go).

 `Step` is the transition of the incremental walker, `DisciplineWalker` is the walker
 itself, and `Legal` is a whole-trace specification that mentions no walker state: it
 only speaks of positions in the trace. The main result is that the two agree.
 */
module StreamDiscipline {
  import opened Wrappers

  // ----- stream events -----

  datatype InvocationKind = FunctionCall | Freeform | UnknownInvocation(code: int)

  /** The tool reference carried by a tool block start. */
  datatype ToolRef = ToolRef(id: string, name: string, signature: string, kind: InvocationKind)

  /** The arm of a ContentBlockStart; a tool arm may carry a nil reference. */
  datatype Block =
    | NoBlock
    | TextBlock
    | ThinkingBlock
    | ProviderBlock(payload: string)
    | ToolBlock(call: Option<ToolRef>)

  datatype BlockStart = BlockStart(index: int, block: Block)

  datatype ToolDelta = ToolDelta(index: int, arguments: string, input: Option<string>)

  /** One stream event. A wrapper arm may carry a nil payload. */
  datatype Event =
    | NoEvent
    | StreamError(code: int, message: string)
    | Usage(counts: seq<int>)
    | MessageStart(id: string, model: string)
    | MessageStop
    | Start(start: Option<BlockStart>)
    | Stop(index: Option<int>)
    | TextDelta(text: string)
    | ThinkingDelta(text: string)
    | SignatureDelta(token: string)
    | ToolCallDelta(delta: Option<ToolDelta>)

  /** The invocation kind of a tool arm; the zero enum value stands for a nil reference. */
  function KindOf(call: Option<ToolRef>): InvocationKind {
    if call.Some? then call.value.kind else FunctionCall
  }

  // ----- the walker's transition -----

  datatype OpenKind = OpenText | OpenThinking | OpenProvider

  datatype NonTool = NonTool(index: int, kind: OpenKind)

  datatype State = State(
    nonTool: Option<NonTool>,
    openTools: map<int, InvocationKind>,
    seen: set<int>,
    sawError: bool,
    messageStopped: bool,
    spanOpen: bool,
    sawText: bool)

  const INITIAL := State(None, map[], {}, false, false, false, false)

  /** Whether a delta carries the payload family of its tool's invocation kind. */
  predicate RightFamily(kind: InvocationKind, d: ToolDelta) {
    match kind
    case FunctionCall => d.input.None?
    case Freeform => d.input.Some? && d.arguments == ""
    case UnknownInvocation(_) => false
  }

  predicate AfterStop(e: Event) {
    e.Usage? || e.StreamError?
  }

  function OpenNonTool(s: State, index: int, kind: OpenKind): (State, bool) {
    (if s.nonTool.Some? || |s.openTools| > 0 then s
     else s.(nonTool := Some(NonTool(index, kind))),
     !(s.nonTool.Some? || |s.openTools| > 0))
  }

  /** A block start marks its index before the overlap rules are consulted, even when they refuse. */
  function StepStart(s: State, b: BlockStart): (State, bool) {
    var s := s.(spanOpen := false);
    if b.index in s.seen then (s, false)
    else
      var s := s.(seen := s.seen + {b.index});
      match b.block
      case NoBlock => (s, true)
      case TextBlock => OpenNonTool(s, b.index, OpenText)
      case ThinkingBlock => OpenNonTool(s, b.index, OpenThinking)
      case ProviderBlock(_) => OpenNonTool(s, b.index, OpenProvider)
      case ToolBlock(call) =>
        if s.nonTool.Some? then (s, false)
        else (s.(openTools := s.openTools[b.index := KindOf(call)]), true)
  }

  function StepStop(s: State, index: int): (State, bool) {
    if index in s.openTools then (s.(openTools := s.openTools - {index}), true)
    else if s.nonTool.Some? && s.nonTool.value.index == index then (s.(nonTool := None, spanOpen := false), true)
    else (s, false)
  }

  function StepDelta(s: State, kind: OpenKind): (State, bool) {
    if s.nonTool.Some? && s.nonTool.value.kind != kind then (s, false)
    else if s.nonTool.None? && |s.openTools| > 0 then (s, false)
    else (s.(spanOpen := true, sawText := true), true)
  }

  function StepSignature(s: State): (State, bool) {
    if s.spanOpen || (s.nonTool.Some? && !s.nonTool.value.kind.OpenProvider?) then (s.(spanOpen := false), true)
    else (s, !((s.nonTool.Some? && s.nonTool.value.kind.OpenProvider?) || |s.openTools| > 0 || !s.sawText))
  }

  /** One walk: the state the walker is left in, and whether the event was accepted. */
  function Step(s: State, e: Event): (State, bool) {
    if s.sawError then (s, false)
    else if s.messageStopped && !AfterStop(e) then (s, false)
    else
      match e
      case StreamError(_, _) => (s.(sawError := true), true)
      case NoEvent => (s, true)
      case Usage(_) => (s, true)
      case MessageStart(_, _) => (s, true)
      case MessageStop =>
        if s.nonTool.Some? || |s.openTools| > 0 then (s, false) else (s.(messageStopped := true), true)
      case Start(None) => (s.(spanOpen := false), true)
      case Start(Some(b)) => StepStart(s, b)
      case Stop(None) => (s, true)
      case Stop(Some(index)) => StepStop(s, index)
      case TextDelta(_) => StepDelta(s, OpenText)
      case ThinkingDelta(_) => StepDelta(s, OpenThinking)
      case SignatureDelta(_) => StepSignature(s)
      case ToolCallDelta(None) => (s, false)
      case ToolCallDelta(Some(d)) => (s, d.index in s.openTools && RightFamily(s.openTools[d.index], d))
  }

  /** The state after a whole trace, if every event of it is accepted. */
  function Run(s: State, es: seq<Event>): (r: Option<State>)
    decreases |es|
  {
    if es == [] then Some(s)
    else
      var before := Run(s, es[..|es| - 1]);
      if before.None? then None
      else
        var (s', ok) := Step(before.value, es[|es| - 1]);
        if ok then Some(s') else None
  }

  predicate Accepts(es: seq<Event>) {
    Run(INITIAL, es).Some?
  }

  /** The end-of-stream rule: no block is left open unless a StreamError abandoned it. */
  predicate Complete(s: State) {
    s.sawError || (s.nonTool.None? && |s.openTools| == 0)
  }

  lemma {:induction false} RunAppend(s: State, a: seq<Event>, b: seq<Event>)
    ensures Run(s, a + b) == if Run(s, a).None? then None else Run(Run(s, a).value, b)
    decreases |b|
  {
    if b == [] {
      assert a + b == a;
    } else {
      assert (a + b)[..|a + b| - 1] == a + b[..|b| - 1];
      RunAppend(s, a, b[..|b| - 1]);
    }
  }

  lemma {:induction false} RunPrefix(s: State, es: seq<Event>, n: nat)
    requires n <= |es|
    requires Run(s, es).Some?
    ensures Run(s, es[..n]).Some?
  {
    assert es == es[..n] + es[n..];
    RunAppend(s, es[..n], es[n..]);
  }

  lemma RunNil(s: State)
    ensures Run(s, []) == Some(s)
  {
  }

  lemma RunOne(s: State, e: Event)
    ensures Run(s, [e]) == var (s', ok) := Step(s, e); if ok then Some(s') else None
  {
    assert [e][..0] == [];
  }

  // ----- the whole-trace specification -----

  predicate StopsAt(e: Event, x: int) {
    e == Stop(Some(x))
  }

  predicate StartsAt(e: Event, x: int) {
    e.Start? && e.start.Some? && e.start.value.index == x
  }

  predicate StartsTool(e: Event, x: int, k: InvocationKind) {
    StartsAt(e, x) && e.start.value.block.ToolBlock? && KindOf(e.start.value.block.call) == k
  }

  predicate StartsNonTool(e: Event, x: int, k: OpenKind) {
    StartsAt(e, x) && match k
                      case OpenText => e.start.value.block.TextBlock?
                      case OpenThinking => e.start.value.block.ThinkingBlock?
                      case OpenProvider => e.start.value.block.ProviderBlock?
  }

  /** No event from position `from` on closes block `x`. */
  ghost predicate NoStopFrom(es: seq<Event>, from: nat, x: int) {
    forall j :: from <= j < |es| ==> !StopsAt(es[j], x)
  }

  /** A tool block of kind `k` at index `x` was started and not stopped since. */
  ghost predicate ToolOpen(es: seq<Event>, x: int, k: InvocationKind) {
    exists i :: 0 <= i < |es| && StartsTool(es[i], x, k) && NoStopFrom(es, i + 1, x)
  }

  ghost predicate NonToolOpen(es: seq<Event>, x: int, k: OpenKind) {
    exists i :: 0 <= i < |es| && StartsNonTool(es[i], x, k) && NoStopFrom(es, i + 1, x)
  }

  ghost predicate AnyTool(es: seq<Event>) {
    exists x, k :: ToolOpen(es, x, k)
  }

  ghost predicate AnyNonTool(es: seq<Event>) {
    exists x, k :: NonToolOpen(es, x, k)
  }

  ghost predicate NothingOpen(es: seq<Event>) {
    !AnyTool(es) && !AnyNonTool(es)
  }

  ghost predicate IndexUsed(es: seq<Event>, x: int) {
    exists i :: 0 <= i < |es| && StartsAt(es[i], x)
  }

  ghost predicate HasContent(es: seq<Event>) {
    exists i :: 0 <= i < |es| && (es[i].TextDelta? || es[i].ThinkingDelta?)
  }

  ghost predicate Errored(es: seq<Event>) {
    exists i :: 0 <= i < |es| && es[i].StreamError?
  }

  ghost predicate Stopped(es: seq<Event>) {
    exists i :: 0 <= i < |es| && es[i].MessageStop?
  }

  /** A text or thinking delta stands in a block of its own kind, or outside every block. */
  ghost predicate DeltaFits(before: seq<Event>, kind: OpenKind) {
    (exists x :: NonToolOpen(before, x, kind)) || NothingOpen(before)
  }

  /** A signature stands in a text or thinking block, or outside every block after some content. */
  ghost predicate SignatureBinds(before: seq<Event>) {
    || (exists x :: NonToolOpen(before, x, OpenText))
    || (exists x :: NonToolOpen(before, x, OpenThinking))
    || (NothingOpen(before) && HasContent(before))
  }

  /** The rule event `e` must satisfy after the events `before`. */
  ghost predicate Fits(before: seq<Event>, e: Event) {
    && !Errored(before)
    && (Stopped(before) ==> AfterStop(e))
    && match e
       case MessageStop => NothingOpen(before)
       case Start(Some(b)) =>
         && !IndexUsed(before, b.index)
         && (match b.block
             case NoBlock => true
             case ToolBlock(_) => !AnyNonTool(before)
             case _ => NothingOpen(before))
       case Stop(Some(x)) => (exists k :: ToolOpen(before, x, k)) || (exists k :: NonToolOpen(before, x, k))
       case TextDelta(_) => DeltaFits(before, OpenText)
       case ThinkingDelta(_) => DeltaFits(before, OpenThinking)
       case SignatureDelta(_) => SignatureBinds(before)
       case ToolCallDelta(None) => false
       case ToolCallDelta(Some(d)) => exists k :: ToolOpen(before, d.index, k) && RightFamily(k, d)
       case _ => true
  }

  /** The declarative discipline of a whole trace. */
  ghost predicate Legal(es: seq<Event>) {
    forall i :: 0 <= i < |es| ==> Fits(es[..i], es[i])
  }

  // ----- the walker accepts exactly the legal traces -----

  /** What the open-block fields mean in terms of the trace walked so far. */
  ghost predicate BlocksMean(s: State, es: seq<Event>) {
    && (forall x, k :: ToolOpen(es, x, k) <==> x in s.openTools && s.openTools[x] == k)
    && (forall x, k :: NonToolOpen(es, x, k) <==> s.nonTool == Some(NonTool(x, k)))
    && (forall x :: x in s.seen <==> IndexUsed(es, x))
  }

  ghost predicate FlagsMean(s: State, es: seq<Event>) {
    && (s.sawError <==> Errored(es))
    && (s.messageStopped <==> Stopped(es))
    && (s.sawText <==> HasContent(es))
  }

  /** Facts about the fields alone: an open span never meets a tool or provider block. */
  predicate Coherent(s: State) {
    && (s.spanOpen ==> s.sawText && |s.openTools| == 0 && (s.nonTool.Some? ==> !s.nonTool.value.kind.OpenProvider?))
    && (s.nonTool.Some? ==> |s.openTools| == 0)
    && s.openTools.Keys <= s.seen
    && (s.nonTool.Some? ==> s.nonTool.value.index in s.seen)
    && (s.messageStopped ==> s.nonTool.None? && |s.openTools| == 0)
  }

  ghost predicate Means(s: State, es: seq<Event>) {
    BlocksMean(s, es) && FlagsMean(s, es) && Coherent(s)
  }

  lemma ToolOpenSnoc(es: seq<Event>, e: Event, x: int, k: InvocationKind)
    ensures ToolOpen(es + [e], x, k) <==> StartsTool(e, x, k) || (ToolOpen(es, x, k) && !StopsAt(e, x))
  {
    var all := es + [e];
    if ToolOpen(all, x, k) {
      var i :| 0 <= i < |all| && StartsTool(all[i], x, k) && NoStopFrom(all, i + 1, x);
      if i < |es| {
        assert !StopsAt(all[|es|], x);
        forall j | i + 1 <= j < |es| ensures !StopsAt(es[j], x) { assert es[j] == all[j]; }
        assert NoStopFrom(es, i + 1, x);
      }
    }
    if StartsTool(e, x, k) {
      assert StartsTool(all[|es|], x, k) && NoStopFrom(all, |es| + 1, x);
    } else if ToolOpen(es, x, k) && !StopsAt(e, x) {
      var i :| 0 <= i < |es| && StartsTool(es[i], x, k) && NoStopFrom(es, i + 1, x);
      assert StartsTool(all[i], x, k) && NoStopFrom(all, i + 1, x);
    }
  }

  lemma NonToolOpenSnoc(es: seq<Event>, e: Event, x: int, k: OpenKind)
    ensures NonToolOpen(es + [e], x, k) <==> StartsNonTool(e, x, k) || (NonToolOpen(es, x, k) && !StopsAt(e, x))
  {
    var all := es + [e];
    if NonToolOpen(all, x, k) {
      var i :| 0 <= i < |all| && StartsNonTool(all[i], x, k) && NoStopFrom(all, i + 1, x);
      if i < |es| {
        assert !StopsAt(all[|es|], x);
        forall j | i + 1 <= j < |es| ensures !StopsAt(es[j], x) { assert es[j] == all[j]; }
        assert NoStopFrom(es, i + 1, x);
      }
    }
    if StartsNonTool(e, x, k) {
      assert StartsNonTool(all[|es|], x, k) && NoStopFrom(all, |es| + 1, x);
    } else if NonToolOpen(es, x, k) && !StopsAt(e, x) {
      var i :| 0 <= i < |es| && StartsNonTool(es[i], x, k) && NoStopFrom(es, i + 1, x);
      assert StartsNonTool(all[i], x, k) && NoStopFrom(all, i + 1, x);
    }
  }

  lemma FlagsSnoc(es: seq<Event>, e: Event)
    ensures Errored(es + [e]) <==> Errored(es) || e.StreamError?
    ensures Stopped(es + [e]) <==> Stopped(es) || e.MessageStop?
    ensures HasContent(es + [e]) <==> HasContent(es) || e.TextDelta? || e.ThinkingDelta?
    ensures forall x :: IndexUsed(es + [e], x) <==> IndexUsed(es, x) || StartsAt(e, x)
  {
    var all := es + [e];
    assert all[|es|] == e;
    assert forall i :: 0 <= i < |es| ==> all[i] == es[i];
    assert Errored(es) ==> Errored(all) by {
      if Errored(es) { var i :| 0 <= i < |es| && es[i].StreamError?; assert all[i].StreamError?; }
    }
    assert Stopped(es) ==> Stopped(all) by {
      if Stopped(es) { var i :| 0 <= i < |es| && es[i].MessageStop?; assert all[i].MessageStop?; }
    }
    assert HasContent(es) ==> HasContent(all) by {
      if HasContent(es) {
        var i :| 0 <= i < |es| && (es[i].TextDelta? || es[i].ThinkingDelta?);
        assert all[i].TextDelta? || all[i].ThinkingDelta?;
      }
    }
    forall x ensures IndexUsed(all, x) <==> IndexUsed(es, x) || StartsAt(e, x) {
      if IndexUsed(es, x) { var i :| 0 <= i < |es| && StartsAt(es[i], x); assert StartsAt(all[i], x); }
      if StartsAt(e, x) { assert StartsAt(all[|es|], x); }
    }
  }

  /** The open-block quantifiers of the specification, read off the walker's fields. */
  lemma OpenMeans(s: State, es: seq<Event>)
    requires BlocksMean(s, es)
    ensures AnyTool(es) <==> |s.openTools| > 0
    ensures AnyNonTool(es) <==> s.nonTool.Some?
  {
    if |s.openTools| > 0 {
      assert (forall x :: x !in s.openTools) ==> s.openTools == map[];
      var x :| x in s.openTools;
      assert ToolOpen(es, x, s.openTools[x]);
    }
    if s.nonTool.Some? {
      assert NonToolOpen(es, s.nonTool.value.index, s.nonTool.value.kind);
    }
  }

  lemma StepDecides(s: State, es: seq<Event>, e: Event)
    requires Means(s, es)
    ensures Step(s, e).1 <==> Fits(es, e)
  {
    OpenMeans(s, es);
    if s.nonTool.Some? {
      assert NonToolOpen(es, s.nonTool.value.index, s.nonTool.value.kind);
    }
    if e.Stop? && e.index.Some? && e.index.value in s.openTools {
      assert ToolOpen(es, e.index.value, s.openTools[e.index.value]);
    }
    if e.ToolCallDelta? && e.delta.Some? && e.delta.value.index in s.openTools {
      assert ToolOpen(es, e.delta.value.index, s.openTools[e.delta.value.index]);
    }
  }

  lemma StepCoherent(s: State, e: Event)
    requires Coherent(s) && Step(s, e).1
    ensures Coherent(Step(s, e).0)
  {
    if e.Stop? && e.index.Some? && e.index.value in s.openTools {
      assert |s.openTools| > 0;
      assert (s.openTools - {e.index.value}).Keys <= s.openTools.Keys;
    }
  }

  lemma ToolsAfter(s: State, e: Event, x: int, k: InvocationKind)
    requires Coherent(s) && Step(s, e).1
    ensures (x in Step(s, e).0.openTools && Step(s, e).0.openTools[x] == k)
       <==> StartsTool(e, x, k) || (x in s.openTools && s.openTools[x] == k && !StopsAt(e, x))
  {
  }

  lemma NonToolAfter(s: State, e: Event, x: int, k: OpenKind)
    requires Coherent(s) && Step(s, e).1
    ensures Step(s, e).0.nonTool == Some(NonTool(x, k))
       <==> StartsNonTool(e, x, k) || (s.nonTool == Some(NonTool(x, k)) && !StopsAt(e, x))
  {
    if e.Stop? && e.index.Some? && e.index.value in s.openTools {
      assert |s.openTools| > 0;
    }
  }

  /** What an accepted event does to the flags and to the used indices. */
  lemma FlagsAfter(s: State, e: Event)
    requires Step(s, e).1
    ensures var t := Step(s, e).0;
            && (t.sawError <==> s.sawError || e.StreamError?)
            && (t.messageStopped <==> s.messageStopped || e.MessageStop?)
            && (t.sawText <==> s.sawText || e.TextDelta? || e.ThinkingDelta?)
            && forall x :: x in t.seen <==> x in s.seen || StartsAt(e, x)
  {
  }

  /** An accepted event keeps the meaning of every walker field. */
  lemma StepMeans(s: State, es: seq<Event>, e: Event)
    requires Means(s, es) && Step(s, e).1
    ensures Means(Step(s, e).0, es + [e])
  {
    hide Step, ToolOpen, NonToolOpen, IndexUsed, Errored, Stopped, HasContent;
    var t := Step(s, e).0;
    StepCoherent(s, e);
    FlagsSnoc(es, e);
    FlagsAfter(s, e);
    forall x, k ensures ToolOpen(es + [e], x, k) <==> x in t.openTools && t.openTools[x] == k {
      ToolOpenSnoc(es, e, x, k);
      ToolsAfter(s, e, x, k);
    }
    forall x, k ensures NonToolOpen(es + [e], x, k) <==> t.nonTool == Some(NonTool(x, k)) {
      NonToolOpenSnoc(es, e, x, k);
      NonToolAfter(s, e, x, k);
    }
  }

  /** The incremental walker accepts a trace exactly when the trace is legal. */
  lemma {:induction false} WalkerAcceptsExactlyLegal(es: seq<Event>)
    ensures Accepts(es) <==> Legal(es)
    ensures Accepts(es) ==> Means(Run(INITIAL, es).value, es)
    decreases |es|
  {
    if es != [] {
      var n := |es| - 1;
      var init := es[..n];
      WalkerAcceptsExactlyLegal(init);
      assert es == init + [es[n]];
      assert forall i :: 0 <= i < n ==> init[..i] == es[..i];
      if Accepts(init) {
        var s := Run(INITIAL, init).value;
        StepDecides(s, init, es[n]);
        if Step(s, es[n]).1 { StepMeans(s, init, es[n]); }
      } else {
        var i :| 0 <= i < n && !Fits(init[..i], init[i]);
        assert !Fits(es[..i], es[i]);
      }
    }
  }

  /** The end-of-stream rule, in terms of the trace alone. */
  lemma CompleteMeans(es: seq<Event>)
    requires Legal(es)
    ensures Accepts(es)
    ensures Complete(Run(INITIAL, es).value) <==> Errored(es) || NothingOpen(es)
  {
    WalkerAcceptsExactlyLegal(es);
    OpenMeans(Run(INITIAL, es).value, es);
  }

  /**
   A signature the walker accepts is never inside a tool or provider block, and a text or
   thinking scope encloses it or precedes it.
   */
  lemma SignatureHasScope(es: seq<Event>, i: nat)
    requires i < |es| && es[i].SignatureDelta?
    requires Accepts(es)
    ensures !AnyTool(es[..i]) && !(exists x :: NonToolOpen(es[..i], x, OpenProvider))
    ensures (exists x, k :: k != OpenProvider && NonToolOpen(es[..i], x, k)) || HasContent(es[..i])
  {
    WalkerAcceptsExactlyLegal(es);
    assert Fits(es[..i], es[i]);
    RunPrefix(INITIAL, es, i);
    WalkerAcceptsExactlyLegal(es[..i]);
    OpenMeans(Run(INITIAL, es[..i]).value, es[..i]);
  }

  /** A block index is opened at most once in an accepted trace. */
  lemma IndexOpenedOnce(es: seq<Event>, i: nat, j: nat, x: int)
    requires Accepts(es)
    requires i < j < |es| && StartsAt(es[i], x)
    ensures !StartsAt(es[j], x)
  {
    WalkerAcceptsExactlyLegal(es);
    assert Fits(es[..j], es[j]);
    assert StartsAt(es[..j][i], x);
  }

  // ----- the walker -----

  class DisciplineWalker {
    var nonTool: Option<NonTool>
    var openTools: map<int, InvocationKind>
    var seen: set<int>
    var sawError: bool
    var messageStopped: bool
    var spanOpen: bool
    var sawText: bool

    function Value(): State
      reads this
    {
      State(nonTool, openTools, seen, sawError, messageStopped, spanOpen, sawText)
    }

    constructor ()
      ensures Value() == INITIAL
    {
      nonTool, openTools, seen := None, map[], {};
      sawError, messageStopped, spanOpen, sawText := false, false, false, false;
    }

    constructor From(s: State)
      ensures Value() == s
    {
      nonTool, openTools, seen := s.nonTool, s.openTools, s.seen;
      sawError, messageStopped, spanOpen, sawText := s.sawError, s.messageStopped, s.spanOpen, s.sawText;
    }

    /**
     An independent snapshot. A candidate is walked on one because a refused start has already
     marked its index, and the walker that refused it would reject a legal continuation.
     */
    method Clone() returns (copy: DisciplineWalker)
      ensures fresh(copy) && copy.Value() == Value()
    {
      copy := new DisciplineWalker.From(Value());
    }

    method OpenExclusive(index: int, kind: OpenKind) returns (ok: bool)
      modifies this
      ensures (Value(), ok) == OpenNonTool(old(Value()), index, kind)
    {
      if nonTool.Some? || |openTools| > 0 {
        return false;
      }
      nonTool := Some(NonTool(index, kind));
      return true;
    }

    method StartBlock(b: BlockStart) returns (ok: bool)
      modifies this
      ensures (Value(), ok) == StepStart(old(Value()), b)
    {
      spanOpen := false;
      if b.index in seen {
        return false;
      }
      seen := seen + {b.index};
      match b.block {
        case NoBlock =>
        case TextBlock =>
          ok := OpenExclusive(b.index, OpenText);
          return;
        case ThinkingBlock =>
          ok := OpenExclusive(b.index, OpenThinking);
          return;
        case ProviderBlock(_) =>
          ok := OpenExclusive(b.index, OpenProvider);
          return;
        case ToolBlock(call) =>
          if nonTool.Some? {
            return false;
          }
          openTools := openTools[b.index := KindOf(call)];
      }
      return true;
    }

    method StopBlock(index: int) returns (ok: bool)
      modifies this
      ensures (Value(), ok) == StepStop(old(Value()), index)
    {
      if index in openTools {
        openTools := openTools - {index};
        return true;
      }
      if nonTool.Some? && nonTool.value.index == index {
        nonTool, spanOpen := None, false;
        return true;
      }
      return false;
    }

    /** Validates one event and advances the walker. */
    method Walk(e: Event) returns (ok: bool)
      modifies this
      ensures (Value(), ok) == Step(old(Value()), e)
    {
      hide StepStart, StepStop, RightFamily;
      if sawError {
        return false;
      }
      if messageStopped && !e.Usage? && !e.StreamError? {
        return false;
      }
      match e {
        case StreamError(_, _) =>
          sawError := true;
        case NoEvent =>
        case Usage(_) =>
        case MessageStart(_, _) =>
        case MessageStop =>
          if nonTool.Some? || |openTools| > 0 {
            return false;
          }
          messageStopped := true;
        case Start(start) =>
          if start.None? {
            spanOpen := false;
            return true;
          }
          ok := StartBlock(start.value);
          return;
        case Stop(index) =>
          if index.None? {
            return true;
          }
          ok := StopBlock(index.value);
          return;
        case TextDelta(_) =>
          if (nonTool.Some? && nonTool.value.kind != OpenText) || (nonTool.None? && |openTools| > 0) {
            return false;
          }
          spanOpen, sawText := true, true;
        case ThinkingDelta(_) =>
          if (nonTool.Some? && nonTool.value.kind != OpenThinking) || (nonTool.None? && |openTools| > 0) {
            return false;
          }
          spanOpen, sawText := true, true;
        case SignatureDelta(_) =>
          if spanOpen || (nonTool.Some? && (nonTool.value.kind == OpenText || nonTool.value.kind == OpenThinking)) {
            spanOpen := false;
            return true;
          }
          if (nonTool.Some? && nonTool.value.kind == OpenProvider) || |openTools| > 0 || !sawText {
            return false;
          }
        case ToolCallDelta(delta) =>
          if delta.None? || delta.value.index !in openTools {
            return false;
          }
          return RightFamily(openTools[delta.value.index], delta.value);
      }
      return true;
    }

    /** Walks a whole batch, stopping at the first refused event. */
    method WalkAll(es: seq<Event>) returns (ok: bool)
      modifies this
      ensures ok <==> Run(old(Value()), es).Some?
      ensures ok ==> Run(old(Value()), es) == Some(Value())
    {
      hide Step, DisciplineWalker.Value;
      var i := 0;
      while i < |es|
        invariant 0 <= i <= |es|
        invariant Run(old(Value()), es[..i]) == Some(Value())
      {
        assert es[..i + 1][..i] == es[..i];
        ok := Walk(es[i]);
        if !ok {
          if Run(old(Value()), es).Some? { RunPrefix(old(Value()), es, i + 1); }
          return false;
        }
        i := i + 1;
      }
      assert es[..|es|] == es;
      return true;
    }

    /** The missing-stop check at a terminal boundary. */
    method End() returns (ok: bool)
      ensures ok <==> Complete(Value())
    {
      return sawError || !(nonTool.Some? || |openTools| > 0);
    }
  }
}
