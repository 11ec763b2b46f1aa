/**
 OpenAI Chat Completions responses (internal/bridge/response.go:543-715, 1465-1509).
 */
module BridgeChat {
  import opened Wrappers
  import opened BridgeJson
  import opened BridgeCompletion
  import BridgeCounts

  // ----- reading -----

  function ParseCall(codec: Codec, j: Json): Option<Call> {
    var o :- AsObject(j);
    var _ :- Need(Only(o, {Id, Type, Function}));
    var id :- RequiredString(o, Id);
    var kind :- RequiredString(o, Type);
    var _ :- Need(!id.Empty? && kind.FunctionType?);
    var fn :- RequiredObject(o, Function);
    var _ :- Need(Only(fn, {Name, Arguments}));
    var name :- RequiredString(fn, Name);
    var text :- RequiredString(fn, Arguments);
    var args :- codec.decode(text);
    Some(Call(id, Empty, name, args, Empty))
  }

  function ParseCalls(codec: Codec, js: seq<Json>): Option<seq<Block>> {
    if js == [] then Some([])
    else
      var front :- ParseCalls(codec, js[..|js| - 1]);
      var call :- ParseCall(codec, js[|js| - 1]);
      Some(front + [ToolBlock(call)])
  }

  /** The text, if any, before the tool calls. */
  function ParseMessage(codec: Codec, o: Fields): Option<seq<Block>> {
    var _ :- Need(Only(o, {Role, Content, ToolCalls, Refusal, Annotations, Audio, FunctionCall}));
    var role :- RequiredString(o, Role);
    var _ :- Need(role.Assistant?);
    var _ :- Need(!Meaningful(o, Refusal) && !Meaningful(o, Annotations) && !Meaningful(o, Audio) && !Meaningful(o, FunctionCall));
    var text :- OptionalString(o, Content);
    var calls :- if ToolCalls in o then RequiredArray(o, ToolCalls) else Some([]);
    var tools :- ParseCalls(codec, calls);
    Some((if text.None? then [] else [TextBlock(text.value, Empty, Empty)]) + tools)
  }

  function ParseFinish(w: Word): Option<Finish> {
    match w
    case Stop => Some(Stopped)
    case ToolCallsReason => Some(ToolCalling)
    case Length => Some(Cut)
    case _ => None
  }

  function ParseChoice(codec: Codec, j: Json): Option<(Finish, seq<Block>)> {
    var o :- AsObject(j);
    var _ :- Need(Only(o, {Index, Message, FinishReason, Logprobs}));
    var index :- IntOrZero(o, Index);
    var _ :- Need(index == 0 && !Meaningful(o, Logprobs));
    var reason :- RequiredString(o, FinishReason);
    var finish :- ParseFinish(reason);
    var message :- RequiredObject(o, Message);
    var blocks :- ParseMessage(codec, message);
    Some((finish, blocks))
  }

  function Parse(codec: Codec, j: Json): Option<Completion> {
    var top :- AsObject(j);
    var _ :- Need(Only(top, {Id, Object, Created, Model, Choices, Usage, SystemFingerprint, ServiceTier}));
    var kind :- OptionalString(top, Object);
    var _ :- Need(kind.None? || kind.value.ChatCompletion?);
    var id :- StringOrEmpty(top, Id);
    var model :- StringOrEmpty(top, Model);
    var created :- IntOrZero(top, Created);
    var choices :- RequiredArray(top, Choices);
    var _ :- Need(|choices| == 1);
    var choice :- ParseChoice(codec, choices[0]);
    var usage :- BridgeCounts.ParseOpenAI(top, false);
    var c := Completion(id, model, created, choice.1, choice.0, usage);
    var _ :- Need(!(c.finish.Stopped? && HasTools(c.blocks)) && Valid(c));
    Some(c)
  }

  // ----- writing -----

  function WriteCall(codec: Codec, c: Call): Json {
    Obj(map[Id := Str(c.callId), Type := Str(FunctionType),
            Function := Obj(map[Name := Str(c.name), Arguments := Str(codec.encode(c.args))])])
  }

  predicate AllTools(bs: seq<Block>) {
    forall i :: 0 <= i < |bs| ==> bs[i].ToolBlock?
  }

  function WriteCalls(codec: Codec, bs: seq<Block>): seq<Json>
    requires AllTools(bs)
  {
    if bs == [] then [] else WriteCalls(codec, bs[..|bs| - 1]) + [WriteCall(codec, bs[|bs| - 1].call)]
  }

  /** One text at most, and before every tool call. */
  predicate Writable(bs: seq<Block>) {
    forall i :: 1 <= i < |bs| ==> bs[i].ToolBlock?
  }

  function WriteMessage(codec: Codec, bs: seq<Block>): Json
    requires Writable(bs)
  {
    var text := bs != [] && bs[0].TextBlock?;
    var calls := if text then bs[1..] else bs;
    var base := map[Role := Str(Assistant), Content := if text then Str(bs[0].text) else Null];
    Obj(if calls == [] then base else base[ToolCalls := Arr(WriteCalls(codec, calls))])
  }

  function WriteFinish(f: Finish): Word {
    match f
    case Stopped => Stop
    case ToolCalling => ToolCallsReason
    case Cut => Length
  }

  function WriteChoice(codec: Codec, c: Completion): Json
    requires Writable(c.blocks)
  {
    Obj(map[Index := Num(0), Message := WriteMessage(codec, c.blocks), FinishReason := Str(WriteFinish(c.finish))])
  }

  function Write(codec: Codec, c: Completion): Option<Json> {
    var _ :- Need(Writable(c.blocks) && (c.usage.None? || c.usage.value.write == 0));
    var top := map[Id := Str(c.id), Object := Str(ChatCompletion), Created := Num(c.created), Model := Str(c.model),
                   Choices := Arr([WriteChoice(codec, c)])];
    Some(Obj(if c.usage.None? then top else top[Usage := BridgeCounts.ChatUsage(c.usage.value)]))
  }

  // ----- written, then read -----

  lemma CallBack(codec: Codec, c: Call)
    requires Sound(codec) && !c.callId.Empty? && c.args.Obj?
    ensures ParseCall(codec, WriteCall(codec, c)) == Some(c.(item := Empty, status := Empty))
  {
  }

  lemma {:induction false} CallsBack(codec: Codec, bs: seq<Block>)
    requires Sound(codec) && forall i :: 0 <= i < |bs| ==> bs[i].ToolBlock? && !bs[i].call.callId.Empty? && bs[i].call.args.Obj?
    ensures ParseCalls(codec, WriteCalls(codec, bs)) == Some(CarriedAll(bs))
  {
    hide Sound, WriteCall, ParseCall;
    if bs != [] {
      var init, last := bs[..|bs| - 1], bs[|bs| - 1];
      CallsBack(codec, init);
      CallBack(codec, last.call);
      var js := WriteCalls(codec, bs);
      assert js[..|js| - 1] == WriteCalls(codec, init) && js[|js| - 1] == WriteCall(codec, last.call);
      assert CarriedAll(bs) == CarriedAll(init) + [Carried(last)];
    }
  }

  lemma MessageBack(codec: Codec, bs: seq<Block>)
    requires Sound(codec) && Writable(bs) && Complete(bs)
    ensures ParseMessage(codec, WriteMessage(codec, bs).fields) == Some(CarriedAll(bs))
  {
    hide Sound, ParseCalls, WriteCalls;
    var text := bs != [] && bs[0].TextBlock?;
    var calls := if text then bs[1..] else bs;
    CallsBack(codec, calls);
    var o := WriteMessage(codec, bs).fields;
    assert OptionalString(o, Content) == Some(if text then Some(bs[0].text) else None);
    if text {
      assert CarriedAll(bs) == [Carried(bs[0])] + CarriedAll(calls);
    } else {
      assert [] + CarriedAll(calls) == CarriedAll(bs);
    }
    if calls == [] {
      assert ParseCalls(codec, []) == Some([]) by { NoCalls(codec); }
    }
  }

  lemma NoCalls(codec: Codec)
    ensures ParseCalls(codec, []) == Some([])
  {
  }

  lemma ChoiceBack(codec: Codec, c: Completion)
    requires Sound(codec) && Writable(c.blocks) && Complete(c.blocks)
    ensures ParseChoice(codec, WriteChoice(codec, c)) == Some((c.finish, CarriedAll(c.blocks)))
  {
    hide Sound, ParseMessage, WriteMessage;
    MessageBack(codec, c.blocks);
    var o := WriteChoice(codec, c).fields;
    assert OptionalInt(o, Index) == Some(Some(0));
    assert WriteMessage(codec, c.blocks).Obj? by { MessageIsObject(codec, c.blocks); }
  }

  lemma MessageIsObject(codec: Codec, bs: seq<Block>)
    requires Writable(bs)
    ensures WriteMessage(codec, bs).Obj?
  {
  }

  /** Reading a response from what each of its members reads as. */
  lemma ReadsAs(codec: Codec, top: Fields, choice: Json, c: Completion)
    requires Only(top, {Id, Object, Created, Model, Choices, Usage, SystemFingerprint, ServiceTier})
    requires OptionalString(top, Object) == Some(Some(ChatCompletion))
    requires StringOrEmpty(top, Id) == Some(c.id) && StringOrEmpty(top, Model) == Some(c.model)
    requires IntOrZero(top, Created) == Some(c.created) && RequiredArray(top, Choices) == Some([choice])
    requires ParseChoice(codec, choice) == Some((c.finish, c.blocks)) && BridgeCounts.ParseOpenAI(top, false) == Some(c.usage)
    ensures Parse(codec, Obj(top)) == if !(c.finish.Stopped? && HasTools(c.blocks)) && Valid(c) then Some(c) else None
  {
    hide Only, OptionalString, StringOrEmpty, IntOrZero, RequiredArray, ParseChoice, BridgeCounts.ParseOpenAI, Valid, HasTools;
  }

  lemma WrittenReads(codec: Codec, c: Completion)
    requires Write(codec, c).Some? && 0 <= c.created <= U.MAX
    ensures var top := Write(codec, c).value.fields;
            && Only(top, {Id, Object, Created, Model, Choices, Usage, SystemFingerprint, ServiceTier})
            && OptionalString(top, Object) == Some(Some(ChatCompletion))
            && StringOrEmpty(top, Id) == Some(c.id) && StringOrEmpty(top, Model) == Some(c.model)
            && IntOrZero(top, Created) == Some(c.created) && RequiredArray(top, Choices) == Some([WriteChoice(codec, c)])
  {
    hide WriteChoice, BridgeCounts.ChatUsage;
    var top := Write(codec, c).value.fields;
    assert OptionalString(top, Object) == Some(Some(ChatCompletion));
    assert OptionalInt(top, Created) == Some(Some(c.created));
  }

  lemma WrittenUsage(codec: Codec, c: Completion)
    requires Ready(c) && Write(codec, c).Some?
    ensures BridgeCounts.ParseOpenAI(Write(codec, c).value.fields, false) == Some(c.usage)
  {
    hide WriteChoice, BridgeCounts.ParseOpenAI, BridgeCounts.ChatUsage;
    var top := Write(codec, c).value.fields;
    ReadyFacts(c);
    if c.usage.Some? {
      BridgeCounts.ChatUsageBack(top, c.usage.value);
    } else {
      BridgeCounts.NoUsage(top);
    }
  }

  /**
   A written response reads back as what it was written from, or is refused when a tool call is
   left under an ordinary stop.
   */
  lemma Back(codec: Codec, c: Completion)
    requires Sound(codec) && Ready(c) && Write(codec, c).Some?
    ensures Parse(codec, Write(codec, c).value) ==
              if c.finish.Stopped? && HasTools(c.blocks) then None else Some(c.(blocks := CarriedAll(c.blocks)))
  {
    hide Sound, Parse, WriteChoice, ParseChoice, BridgeCounts.ParseOpenAI, BridgeCounts.ChatUsage, Valid, HasTools,
         Only, OptionalString, StringOrEmpty, IntOrZero, RequiredArray;
    var top := Write(codec, c).value.fields;
    ReadyFacts(c);
    ChoiceBack(codec, c);
    WrittenReads(codec, c);
    WrittenUsage(codec, c);
    CarriedReady(c);
    ReadsAs(codec, top, WriteChoice(codec, c), c.(blocks := CarriedAll(c.blocks)));
  }

  lemma {:induction false} CallsPlain(codec: Codec, js: seq<Json>)
    ensures var r := ParseCalls(codec, js); r.Some? ==> Plain(r.value)
  {
    if js != [] {
      CallsPlain(codec, js[..|js| - 1]);
    }
  }

  lemma MessagePlain(codec: Codec, o: Fields)
    requires ParseMessage(codec, o).Some?
    ensures Plain(ParseMessage(codec, o).value)
  {
    hide ParseCalls, Only, RequiredString, OptionalString, Meaningful;
    CallsPlain(codec, if ToolCalls in o then o[ToolCalls].items else []);
  }

  lemma ChoicePlain(codec: Codec, j: Json)
    requires ParseChoice(codec, j).Some?
    ensures Plain(ParseChoice(codec, j).value.1)
  {
    hide ParseMessage, Plain, Only, RequiredString, IntOrZero, Meaningful;
    MessagePlain(codec, j.fields[Message].fields);
  }

  lemma ParsedTyped(codec: Codec, j: Json)
    requires Parse(codec, j).Some?
    ensures var c := Parse(codec, j).value; Typed(c) && Plain(c.blocks) && !(c.finish.Stopped? && HasTools(c.blocks))
  {
    hide ParseChoice, Plain, Valid, HasTools, Only, StringOrEmpty;
    ChoicePlain(codec, j.fields[Choices].items[0]);
  }

  // ----- the loops -----

  lemma {:induction false} CallsStop(codec: Codec, js: seq<Json>, n: nat)
    requires n <= |js| && ParseCalls(codec, js[..n]).None?
    ensures ParseCalls(codec, js).None?
    decreases |js|
  {
    hide ParseCall;
    if n == |js| {
      assert js[..n] == js;
    } else {
      assert js[..|js| - 1][..n] == js[..n];
      CallsStop(codec, js[..|js| - 1], n);
    }
  }

  method ReadCalls(codec: Codec, js: seq<Json>) returns (blocks: Option<seq<Block>>)
    ensures blocks == ParseCalls(codec, js)
  {
    hide ParseCall;
    var out := [];
    for i := 0 to |js|
      invariant ParseCalls(codec, js[..i]) == Some(out)
    {
      assert js[..i + 1][..i] == js[..i];
      var call := ParseCall(codec, js[i]);
      if call.None? {
        CallsStop(codec, js, i + 1);
        return None;
      }
      out := out + [ToolBlock(call.value)];
    }
    assert js[..|js|] == js;
    return Some(out);
  }

  lemma NoCallsWritten(codec: Codec)
    ensures WriteCalls(codec, []) == []
  {
  }

  lemma {:induction false} CallsWritten(codec: Codec, bs: seq<Block>)
    requires AllTools(bs)
    ensures |WriteCalls(codec, bs)| == |bs|
    decreases |bs|
  {
    if bs != [] { CallsWritten(codec, bs[..|bs| - 1]); }
  }

  /** The tool calls among the first `i` blocks, which begin with at most one text. */
  function ToolsIn(bs: seq<Block>, i: nat): seq<Block>
    requires i <= |bs|
  {
    if i > 0 && bs[0].TextBlock? then bs[1..i] else bs[..i]
  }

  /** One block more: the text that begins the blocks, or a call after the others. */
  lemma ToolsNext(codec: Codec, bs: seq<Block>, i: nat)
    requires i < |bs| && Writable(bs[..i + 1])
    ensures AllTools(ToolsIn(bs, i)) && AllTools(ToolsIn(bs, i + 1))
    ensures WriteCalls(codec, ToolsIn(bs, i + 1)) ==
              WriteCalls(codec, ToolsIn(bs, i)) + (if bs[i].ToolBlock? then [WriteCall(codec, bs[i].call)] else [])
  {
    hide WriteCall;
    var was, now, upTo := ToolsIn(bs, i), ToolsIn(bs, i + 1), bs[..i + 1];
    assert forall k :: 0 <= k < |upTo| ==> upTo[k] == bs[k];
    if bs[i].ToolBlock? {
      assert now == was + [bs[i]];
      assert now[..|was|] == was;
    } else {
      assert i == 0 && was == [] && now == [];
    }
  }

  /** The blocks sorted into one text and the calls after it, or refused. */
  method Arrange(codec: Codec, bs: seq<Block>) returns (message: Option<Json>)
    ensures message == if Writable(bs) then Some(WriteMessage(codec, bs)) else None
  {
    hide WriteCall, WriteCalls;
    var text: Option<Word>, calls: seq<Json>, seenTool := None, [], false;
    NoCallsWritten(codec);
    for i := 0 to |bs|
      invariant Writable(bs[..i]) && text == (if i > 0 && bs[0].TextBlock? then Some(bs[0].text) else None)
      invariant seenTool <==> exists k :: 0 <= k < i && bs[k].ToolBlock?
      invariant AllTools(ToolsIn(bs, i)) && calls == WriteCalls(codec, ToolsIn(bs, i))
    {
      if bs[i].TextBlock? && (text.Some? || seenTool) {
        assert !Writable(bs);
        return None;
      }
      assert Writable(bs[..i + 1]);
      ToolsNext(codec, bs, i);
      if bs[i].TextBlock? {
        text := Some(bs[i].text);
      } else {
        seenTool := true;
        calls := calls + [WriteCall(codec, bs[i].call)];
      }
    }
    assert ToolsIn(bs, |bs|) == if text.Some? then bs[1..] else bs;
    CallsWritten(codec, ToolsIn(bs, |bs|));
    assert bs[..|bs|] == bs;
    var base := map[Role := Str(Assistant), Content := if text.Some? then Str(text.value) else Null];
    return Some(Obj(if |calls| > 0 then base[ToolCalls := Arr(calls)] else base));
  }
}
