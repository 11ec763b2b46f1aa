/**
 Anthropic Messages responses (internal/bridge/response.go:963-1073, 1591-1618).
 */
module BridgeMessages {
  import opened Wrappers
  import opened BridgeJson
  import opened BridgeCompletion
  import BridgeCounts

  // ----- reading -----

  function ParseBlock(j: Json): Option<Block> {
    var o :- AsObject(j);
    var kind :- RequiredString(o, Type);
    if kind.TextType? then
      var _ :- Need(Only(o, {Type, Text, Citations}) && !Meaningful(o, Citations));
      var text :- RequiredString(o, Text);
      Some(TextBlock(text, Empty, Empty))
    else
      var _ :- Need(kind.ToolUse?);
      var _ :- Need(Only(o, {Type, Id, Name, Input, Caller}) && !Meaningful(o, Caller));
      var id :- RequiredString(o, Id);
      var _ :- Need(!id.Empty?);
      var name :- RequiredString(o, Name);
      var args :- RequiredObject(o, Input);
      Some(ToolBlock(Call(id, Empty, name, Obj(args), Empty)))
  }

  function ParseBlocks(js: seq<Json>): Option<seq<Block>> {
    if js == [] then Some([])
    else
      var front :- ParseBlocks(js[..|js| - 1]);
      var last :- ParseBlock(js[|js| - 1]);
      Some(front + [last])
  }

  function ParseFinish(w: Word): Option<Finish> {
    match w
    case EndTurn => Some(Stopped)
    case StopSequence => Some(Stopped)
    case ToolUse => Some(ToolCalling)
    case MaxTokens => Some(Cut)
    case _ => None
  }

  function Parse(j: Json): Option<Completion> {
    var top :- AsObject(j);
    var _ :- Need(Only(top, {Id, Type, Role, Model, Content, StopReason, StopSequenceKey, Usage}));
    var kind :- OptionalString(top, Type);
    var _ :- Need(kind.None? || kind.value.MessageType?);
    var id :- StringOrEmpty(top, Id);
    var model :- StringOrEmpty(top, Model);
    var role :- RequiredString(top, Role);
    var _ :- Need(role.Assistant?);
    var reason :- RequiredString(top, StopReason);
    var finish :- ParseFinish(reason);
    var _ :- Need(if reason.StopSequence? then RequiredString(top, StopSequenceKey).Some? else !Meaningful(top, StopSequenceKey));
    var content :- RequiredArray(top, Content);
    var blocks :- ParseBlocks(content);
    var usage :- BridgeCounts.ParseAnthropic(top);
    var c := Completion(id, model, 0, blocks, finish, usage);
    var _ :- Need(Valid(c));
    Some(c)
  }

  // ----- writing -----

  function WriteBlock(b: Block): Json {
    if b.TextBlock? then Obj(map[Type := Str(TextType), Text := Str(b.text)])
    else Obj(map[Type := Str(ToolUse), Id := Str(b.call.callId), Name := Str(b.call.name), Input := b.call.args])
  }

  function WriteBlocks(bs: seq<Block>): seq<Json> {
    if bs == [] then [] else WriteBlocks(bs[..|bs| - 1]) + [WriteBlock(bs[|bs| - 1])]
  }

  function WriteFinish(f: Finish): Word {
    match f
    case Stopped => EndTurn
    case ToolCalling => ToolUse
    case Cut => MaxTokens
  }

  function Write(c: Completion): Option<Json> {
    var _ :- Need(c.usage.Some?);
    Some(Obj(map[Id := Str(c.id), Type := Str(MessageType), Role := Str(Assistant), Model := Str(c.model),
                 Content := Arr(WriteBlocks(c.blocks)), StopReason := Str(WriteFinish(c.finish)), StopSequenceKey := Null,
                 Usage := BridgeCounts.AnthropicUsage(c.usage.value)]))
  }

  // ----- written, then read -----

  lemma BlockBack(b: Block)
    requires b.ToolBlock? ==> !b.call.callId.Empty? && b.call.args.Obj?
    ensures ParseBlock(WriteBlock(b)) == Some(Carried(b))
  {
    if b.TextBlock? {
      var o := WriteBlock(b).fields;
      assert RequiredString(o, Type) == Some(TextType);
    } else {
      var o := WriteBlock(b).fields;
      assert RequiredString(o, Type) == Some(ToolUse);
      assert RequiredObject(o, Input) == Some(b.call.args.fields);
    }
  }

  lemma {:induction false} BlocksBack(bs: seq<Block>)
    requires Complete(bs)
    ensures ParseBlocks(WriteBlocks(bs)) == Some(CarriedAll(bs))
  {
    hide WriteBlock, ParseBlock;
    if bs != [] {
      var init, last := bs[..|bs| - 1], bs[|bs| - 1];
      BlocksBack(init);
      BlockBack(last);
      var js := WriteBlocks(bs);
      assert js[..|js| - 1] == WriteBlocks(init) && js[|js| - 1] == WriteBlock(last);
      assert CarriedAll(bs) == CarriedAll(init) + [Carried(last)];
    }
  }

  lemma TopBack(c: Completion)
    requires c.usage.Some?
    ensures var top := Write(c).value.fields;
            && Only(top, {Id, Type, Role, Model, Content, StopReason, StopSequenceKey, Usage})
            && OptionalString(top, Type) == Some(Some(MessageType))
            && StringOrEmpty(top, Id) == Some(c.id) && StringOrEmpty(top, Model) == Some(c.model)
            && RequiredString(top, Role) == Some(Assistant)
            && RequiredString(top, StopReason) == Some(WriteFinish(c.finish)) && !Meaningful(top, StopSequenceKey)
            && RequiredArray(top, Content) == Some(WriteBlocks(c.blocks))
            && Usage in top && top[Usage] == BridgeCounts.AnthropicUsage(c.usage.value)
  {
    hide WriteBlocks, BridgeCounts.AnthropicUsage;
  }

  /** A written response reads back as what it was written from. */
  lemma Back(c: Completion)
    requires Ready(c) && Write(c).Some?
    ensures Parse(Write(c).value) == Some(c.(blocks := CarriedAll(c.blocks), created := 0))
  {
    hide ParseBlocks, WriteBlocks, BridgeCounts.ParseAnthropic, BridgeCounts.AnthropicUsage, Valid;
    hide Only, OptionalString, StringOrEmpty, RequiredString, Meaningful, RequiredArray;
    ReadyFacts(c);
    TopBack(c);
    BlocksBack(c.blocks);
    BridgeCounts.AnthropicUsageBack(Write(c).value.fields, c.usage.value);
    CarriedReady(c);
    CreatedIsFree(c.(blocks := CarriedAll(c.blocks)));
  }

  lemma {:induction false} BlocksPlain(js: seq<Json>)
    ensures var r := ParseBlocks(js); r.Some? ==> Plain(r.value)
  {
    if js != [] {
      BlocksPlain(js[..|js| - 1]);
    }
  }

  lemma ParsedTyped(j: Json)
    requires Parse(j).Some?
    ensures var c := Parse(j).value; Typed(c) && Plain(c.blocks)
  {
    hide ParseBlocks, Valid;
    BlocksPlain(j.fields[Content].items);
  }
}
