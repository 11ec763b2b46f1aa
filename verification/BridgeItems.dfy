/**
 OpenAI Responses responses (internal/bridge/response.go:720-959, 1511-1589): a completion as a list
 of output items, consecutive texts of one item together.
 */
module BridgeItems {
  import opened Wrappers
  import opened BridgeJson
  import opened BridgeCompletion
  import BridgeCounts

  /** What the client's request makes the response echo. */
  datatype Envelope = Envelope(parallel: bool, choice: Json, tools: Json)

  /** The documented members that are let pass unread, besides those with a name of their own. */
  const ECHOES: nat := 21

  predicate Observed(k: Key) {
    k.CreatedAt? || k.ParallelToolCalls? || k.ToolChoice? || k.Tools? || k.ServiceTier? || k.Text? || (k.Echo? && k.which < ECHOES)
  }

  // ----- reading -----

  function ParsePart(j: Json): Option<Word> {
    var o :- AsObject(j);
    var kind :- RequiredString(o, Type);
    var _ :- Need(kind.OutputText? && Only(o, {Type, Text, Annotations, Logprobs}));
    var _ :- Need(!Meaningful(o, Annotations) && !Meaningful(o, Logprobs));
    RequiredString(o, Text)
  }

  function ParseParts(js: seq<Json>, item: Word, status: Word): Option<seq<Block>>
    decreases |js|
  {
    if js == [] then Some([])
    else
      var text :- ParsePart(js[0]);
      var rest :- ParseParts(js[1..], item, status);
      Some([TextBlock(text, item, status)] + rest)
  }

  /** An item is completed, or incomplete inside an incomplete response. */
  function ParseStatus(o: Fields, response: Word): Option<Word> {
    var status :- RequiredString(o, Status);
    var _ :- Need(status.Completed? || (response.Incomplete? && status.Incomplete?));
    Some(status)
  }

  function ParseMessage(o: Fields, response: Word): Option<seq<Block>> {
    var _ :- Need(Only(o, {Id, Type, Status, Role, Content}));
    var id :- StringOrEmpty(o, Id);
    var role :- RequiredString(o, Role);
    var _ :- Need(role.Assistant?);
    var status :- ParseStatus(o, response);
    var content :- RequiredArray(o, Content);
    ParseParts(content, id, status)
  }

  function ParseCall(codec: Codec, o: Fields, response: Word): Option<seq<Block>> {
    var _ :- Need(Only(o, {Id, Type, Status, CallId, Name, Arguments}));
    var status :- ParseStatus(o, response);
    var item :- RequiredString(o, Id);
    var callId :- RequiredString(o, CallId);
    var _ :- Need(!item.Empty? && !callId.Empty?);
    var name :- RequiredString(o, Name);
    var text :- RequiredString(o, Arguments);
    var args :- codec.decode(text);
    Some([ToolBlock(Call(callId, item, name, args, status))])
  }

  function ParseItem(codec: Codec, j: Json, response: Word): Option<seq<Block>> {
    var o :- AsObject(j);
    var kind :- RequiredString(o, Type);
    if kind.MessageType? then ParseMessage(o, response)
    else if kind.FunctionCallType? then ParseCall(codec, o, response)
    else None
  }

  function ParseItems(codec: Codec, js: seq<Json>, response: Word): Option<seq<Block>>
    decreases |js|
  {
    if js == [] then Some([])
    else
      var first :- ParseItem(codec, js[0], response);
      var rest :- ParseItems(codec, js[1..], response);
      Some(first + rest)
  }

  function ParseFinish(top: Fields, status: Word): Option<Finish> {
    if status.Completed? then
      var _ :- Need(!Meaningful(top, IncompleteDetails));
      Some(Stopped)
    else
      var _ :- Need(status.Incomplete?);
      var details :- RequiredObject(top, IncompleteDetails);
      var reason :- RequiredString(details, Reason);
      var _ :- Need(Only(details, {Reason}) && reason.MaxOutputTokens?);
      Some(Cut)
  }

  function Parse(codec: Codec, j: Json): Option<Completion> {
    var top :- AsObject(j);
    var _ :- Need(forall k :: k in top ==>
                    k in {Id, Object, Model, Status, Error, IncompleteDetails, Moderation, Output, Usage} || Observed(k));
    var kind :- OptionalString(top, Object);
    var _ :- Need(kind.None? || kind.value.ResponseObject?);
    var id :- StringOrEmpty(top, Id);
    var model :- StringOrEmpty(top, Model);
    var created :- IntOrZero(top, CreatedAt);
    var status :- RequiredString(top, Status);
    var _ :- Need(!Meaningful(top, Error) && !Meaningful(top, Moderation));
    var ended :- ParseFinish(top, status);
    var output :- RequiredArray(top, Output);
    var blocks :- ParseItems(codec, output, status);
    var finish := if ended.Stopped? && HasTools(blocks) then ToolCalling else ended;
    var usage :- BridgeCounts.ParseOpenAI(top, true);
    var c := Completion(id, model, created, blocks, finish, usage);
    var _ :- Need(Valid(c));
    Some(c)
  }

  // ----- writing -----

  function ItemStatus(own: Word, response: Word): Word {
    if own.Completed? || own.Incomplete? then own else response
  }

  /** Where the run of texts that share an item with the one before `j` ends. */
  function RunEnd(bs: seq<Block>, j: nat, item: Word, status: Word, response: Word): (e: nat)
    requires j <= |bs|
    ensures j <= e <= |bs|
    ensures forall k :: j <= k < e ==> bs[k].TextBlock? && bs[k].item == item && ItemStatus(bs[k].status, response) == status
    decreases |bs| - j
  {
    if item.Empty? || j == |bs| || !bs[j].TextBlock? || bs[j].item != item || ItemStatus(bs[j].status, response) != status then j
    else RunEnd(bs, j + 1, item, status, response)
  }

  function WritePart(text: Word): Json {
    Obj(map[Type := Str(OutputText), Text := Str(text), Annotations := Arr([])])
  }

  function WriteParts(bs: seq<Block>): seq<Json>
    requires forall k :: 0 <= k < |bs| ==> bs[k].TextBlock?
    decreases |bs|
  {
    if bs == [] then [] else [WritePart(bs[0].text)] + WriteParts(bs[1..])
  }

  function MessageItem(item: Word, status: Word, texts: seq<Block>): Json
    requires forall k :: 0 <= k < |texts| ==> texts[k].TextBlock?
  {
    Obj(map[Id := Str(item), Type := Str(MessageType), Status := Str(status), Role := Str(Assistant), Content := Arr(WriteParts(texts))])
  }

  function CallItem(codec: Codec, item: Word, status: Word, c: Call): Json {
    Obj(map[Id := Str(item), Type := Str(FunctionCallType), Status := Str(status), CallId := Str(c.callId), Name := Str(c.name),
            Arguments := Str(codec.encode(c.args))])
  }

  function TextItem(g: Generator, id: Word, b: Block, i: nat): Word
    requires b.TextBlock?
  {
    if b.item.Empty? then g.item(false, id, i) else b.item
  }

  function ToolItem(g: Generator, id: Word, b: Block, i: nat): Word
    requires b.ToolBlock?
  {
    if b.call.item.Empty? || b.call.item == b.call.callId then g.item(true, id, i) else b.call.item
  }

  /** The item block `i` opens: its identity, its status, where it ends, and how it is written. */
  function FirstItem(g: Generator, id: Word, bs: seq<Block>, i: nat): Word
    requires i < |bs|
  {
    if bs[i].TextBlock? then TextItem(g, id, bs[i], i) else ToolItem(g, id, bs[i], i)
  }

  function FirstEnd(bs: seq<Block>, response: Word, i: nat): (e: nat)
    requires i < |bs|
    ensures i < e <= |bs|
    ensures if bs[i].TextBlock? then forall k :: i <= k < e ==> bs[k].TextBlock? else e == i + 1
  {
    if bs[i].TextBlock? then RunEnd(bs, i + 1, bs[i].item, ItemStatus(bs[i].status, response), response) else i + 1
  }

  function FirstJson(codec: Codec, bs: seq<Block>, response: Word, i: nat, item: Word): Json
    requires i < |bs|
  {
    if bs[i].TextBlock? then MessageItem(item, ItemStatus(bs[i].status, response), bs[i..FirstEnd(bs, response, i)])
    else CallItem(codec, item, ItemStatus(bs[i].call.status, response), bs[i].call)
  }

  /** The items from block `i` on; an item identity is used once. */
  function WriteItems(codec: Codec, g: Generator, id: Word, bs: seq<Block>, response: Word, i: nat, seen: set<Word>): Option<seq<Json>>
    requires i <= |bs|
    decreases |bs| - i
  {
    if i == |bs| then Some([])
    else
      var item := FirstItem(g, id, bs, i);
      var _ :- Need(item !in seen);
      var rest :- WriteItems(codec, g, id, bs, response, FirstEnd(bs, response, i), seen + {item});
      Some([FirstJson(codec, bs, response, i, item)] + rest)
  }

  function TopLevel(c: Completion, output: seq<Json>, e: Envelope): Fields {
    var status := if c.finish.Cut? then Incomplete else Completed;
    map[Id := Str(c.id), Object := Str(ResponseObject), CreatedAt := Num(c.created), Model := Str(c.model),
        Status := Str(status), Error := Null,
        IncompleteDetails := if c.finish.Cut? then Obj(map[Reason := Str(MaxOutputTokens)]) else Null,
        Output := Arr(output), ParallelToolCalls := Bool(e.parallel), ToolChoice := e.choice, Tools := e.tools]
  }

  function WithUsage(top: Fields, c: Completion): Fields {
    if c.usage.None? then top else top[Usage := BridgeCounts.ResponsesUsage(c.usage.value)]
  }

  function Write(codec: Codec, g: Generator, env: Option<Envelope>, c: Completion): Option<Json> {
    var e :- env;
    var status := if c.finish.Cut? then Incomplete else Completed;
    var output :- WriteItems(codec, g, c.id, c.blocks, status, 0, {});
    Some(Obj(WithUsage(TopLevel(c, output, e), c)))
  }

  // ----- written, then read -----

  function ItemOf(b: Block): Word {
    if b.TextBlock? then b.item else b.call.item
  }

  function StatusOf(b: Block): Word {
    if b.TextBlock? then b.status else b.call.status
  }

  /** The same text, or the same call. */
  predicate SameContent(a: Block, b: Block) {
    Carried(a) == Carried(b)
  }

  predicate SameContents(a: seq<Block>, b: seq<Block>) {
    |a| == |b| && forall k :: 0 <= k < |a| ==> SameContent(a[k], b[k])
  }

  /** Items outside `seen`; a call's item is no earlier block's. */
  ghost predicate Fresh(bs: seq<Block>, seen: set<Word>) {
    && (forall k :: 0 <= k < |bs| ==> ItemOf(bs[k]) !in seen)
    && (forall k, l :: 0 <= k < l < |bs| && bs[l].ToolBlock? ==> ItemOf(bs[k]) != ItemOf(bs[l]))
  }

  lemma {:induction false} PartsBack(bs: seq<Block>, item: Word, status: Word)
    requires forall k :: 0 <= k < |bs| ==> bs[k].TextBlock?
    ensures var r := ParseParts(WriteParts(bs), item, status);
            r.Some? && SameContents(bs, r.value) && forall k :: 0 <= k < |bs| ==> r.value[k].TextBlock? && r.value[k].item == item
    decreases |bs|
  {
    if bs != [] {
      PartsBack(bs[1..], item, status);
      var js := WriteParts(bs);
      assert js[1..] == WriteParts(bs[1..]);
      PartBack(bs[0].text);
    }
  }

  lemma PartBack(text: Word)
    ensures ParsePart(WritePart(text)) == Some(text)
  {
    var o := WritePart(text).fields;
    assert RequiredString(o, Type) == Some(OutputText);
  }

  predicate Readable(status: Word, response: Word) {
    status.Completed? || (response.Incomplete? && status.Incomplete?)
  }

  lemma MessageStrings(item: Word, status: Word, bs: seq<Block>)
    requires forall k :: 0 <= k < |bs| ==> bs[k].TextBlock?
    ensures var o := MessageItem(item, status, bs).fields;
            && RequiredString(o, Type) == Some(MessageType) && RequiredString(o, Role) == Some(Assistant)
            && RequiredString(o, Status) == Some(status) && StringOrEmpty(o, Id) == Some(item)
  {
    hide WriteParts;
    assert OptionalString(MessageItem(item, status, bs).fields, Id) == Some(Some(item));
  }

  lemma MessageParts(item: Word, status: Word, bs: seq<Block>)
    requires forall k :: 0 <= k < |bs| ==> bs[k].TextBlock?
    ensures var o := MessageItem(item, status, bs).fields;
            Only(o, {Id, Type, Status, Role, Content}) && RequiredArray(o, Content) == Some(WriteParts(bs))
  {
    hide WriteParts;
  }

  lemma MessageBack(codec: Codec, item: Word, status: Word, bs: seq<Block>, response: Word)
    requires (forall k :: 0 <= k < |bs| ==> bs[k].TextBlock?) && Readable(status, response)
    ensures var r := ParseItem(codec, MessageItem(item, status, bs), response);
            r.Some? && SameContents(bs, r.value) && forall k :: 0 <= k < |bs| ==> r.value[k].TextBlock? && r.value[k].item == item
  {
    hide ParseParts, WriteParts, SameContents, ParseCall, Only, RequiredString, StringOrEmpty, RequiredArray;
    PartsBack(bs, item, status);
    MessageStrings(item, status, bs);
    MessageParts(item, status, bs);
  }

  lemma CallBack(codec: Codec, item: Word, status: Word, c: Call, response: Word)
    requires Sound(codec) && Readable(status, response) && !item.Empty? && !c.callId.Empty? && c.args.Obj?
    ensures ParseItem(codec, CallItem(codec, item, status, c), response) == Some([ToolBlock(c.(item := item, status := status))])
  {
    var o := CallItem(codec, item, status, c).fields;
    assert RequiredString(o, Type) == Some(FunctionCallType) && RequiredString(o, Status) == Some(status);
    assert RequiredString(o, Arguments) == Some(codec.encode(c.args));
  }

  /** No block is incomplete in a completed response. */
  predicate Settled(bs: seq<Block>, response: Word) {
    (response.Completed? || response.Incomplete?) && forall k :: 0 <= k < |bs| && StatusOf(bs[k]).Incomplete? ==> response.Incomplete?
  }

  lemma ItemsCons(codec: Codec, j: Json, js: seq<Json>, response: Word)
    ensures ParseItems(codec, [j] + js, response) ==
              (var first := ParseItem(codec, j, response);
               if first.None? then None
               else var rest := ParseItems(codec, js, response); if rest.None? then None else Some(first.value + rest.value))
  {
    hide ParseItem;
    assert ([j] + js)[1..] == js;
  }

  lemma JoinFresh(a: seq<Block>, b: seq<Block>, item: Word, seen: set<Word>)
    requires item !in seen && Fresh(b, seen + {item}) && a != []
    requires (forall k :: 0 <= k < |a| ==> ItemOf(a[k]) == item) && (|a| == 1 || forall k :: 0 <= k < |a| ==> a[k].TextBlock?)
    ensures Fresh(a + b, seen)
  {
  }

  lemma JoinContents(bs: seq<Block>, i: nat, e: nat, a: seq<Block>, b: seq<Block>)
    requires i <= e <= |bs| && SameContents(bs[i..e], a) && SameContents(bs[e..], b)
    ensures SameContents(bs[i..], a + b)
  {
    assert bs[i..] == bs[i..e] + bs[e..];
  }

  /** The items from block `i` on read back as those blocks. */
  lemma {:induction false} ItemsBack(codec: Codec, g: Generator, id: Word, bs: seq<Block>, response: Word, i: nat, seen: set<Word>)
    returns (back: seq<Block>)
    requires i <= |bs| && Sound(codec) && Generates(g) && Complete(bs) && Settled(bs, response)
    requires WriteItems(codec, g, id, bs, response, i, seen).Some?
    ensures ParseItems(codec, WriteItems(codec, g, id, bs, response, i, seen).value, response) == Some(back)
    ensures SameContents(bs[i..], back) && Fresh(back, seen)
    decreases |bs| - i
  {
    hide ParseItems, FirstItem, FirstEnd, FirstJson, SameContents, Fresh, Sound, Settled, Complete, Generates;
    if i == |bs| {
      back := [];
      Nothing(codec, bs, response, seen);
    } else {
      var item, e := FirstItem(g, id, bs, i), FirstEnd(bs, response, i);
      var rest := WriteItems(codec, g, id, bs, response, e, seen + {item}).value;
      var more := ItemsBack(codec, g, id, bs, response, e, seen + {item});
      var own := FirstBack(codec, g, id, bs, response, i);
      back := own + more;
      ItemsCons(codec, FirstJson(codec, bs, response, i, item), rest, response);
      JoinFresh(own, more, item, seen);
      JoinContents(bs, i, e, own, more);
    }
  }

  lemma Nothing(codec: Codec, bs: seq<Block>, response: Word, seen: set<Word>)
    ensures ParseItems(codec, [], response) == Some([]) && SameContents(bs[|bs|..], []) && Fresh([], seen)
  {
  }

  lemma FirstBack(codec: Codec, g: Generator, id: Word, bs: seq<Block>, response: Word, i: nat) returns (own: seq<Block>)
    requires i < |bs| && Sound(codec) && Generates(g) && Complete(bs) && Settled(bs, response)
    ensures var item, e := FirstItem(g, id, bs, i), FirstEnd(bs, response, i);
            && ParseItem(codec, FirstJson(codec, bs, response, i, item), response) == Some(own)
            && SameContents(bs[i..e], own) && own != []
            && (forall k :: 0 <= k < |own| ==> ItemOf(own[k]) == item)
            && (|own| == 1 || forall k :: 0 <= k < |own| ==> own[k].TextBlock?)
  {
    hide ParseItem, MessageItem, CallItem, Sound, RunEnd;
    var item, e, status := FirstItem(g, id, bs, i), FirstEnd(bs, response, i), ItemStatus(StatusOf(bs[i]), response);
    assert Readable(status, response);
    if bs[i].TextBlock? {
      MessageBack(codec, item, status, bs[i..e], response);
      own := ParseItem(codec, FirstJson(codec, bs, response, i, item), response).value;
    } else {
      CallBack(codec, item, status, bs[i].call, response);
      own := [ToolBlock(bs[i].call.(item := item, status := status))];
    }
  }

  lemma FreshValid(bs: seq<Block>)
    requires Complete(bs) && DistinctCalls(bs) && Fresh(bs, {})
    ensures BlocksValid(bs)
  {
    hide TakenBy;
    forall i | 0 <= i < |bs| ensures BlockValid(TakenBy(bs[..i]), bs[i]) {
      if bs[i].ToolBlock? {
        TakenOnly(bs[..i], bs[i].call.callId);
        TakenOnly(bs[..i], bs[i].call.item);
        assert forall j :: 0 <= j < i ==> bs[..i][j] == bs[j];
      }
    }
  }

  lemma SameComplete(a: seq<Block>, b: seq<Block>)
    requires SameContents(a, b)
    ensures (Complete(a) ==> Complete(b)) && (DistinctCalls(a) ==> DistinctCalls(b)) && (HasTools(a) <==> HasTools(b))
    ensures CarriedAll(a) == CarriedAll(b)
  {
    assert forall k :: 0 <= k < |a| ==> SameContent(a[k], b[k]) && SameContent(b[k], a[k]);
    if HasTools(a) {
      var i :| 0 <= i < |a| && a[i].ToolBlock?;
      assert b[i].ToolBlock?;
    }
    if HasTools(b) {
      var i :| 0 <= i < |b| && b[i].ToolBlock?;
      assert a[i].ToolBlock?;
    }
  }

  /** The termination Responses reports: a completed response with tool calls is a tool-call termination. */
  function Told(c: Completion): Finish {
    if c.finish.Stopped? && HasTools(c.blocks) then ToolCalling else c.finish
  }

  lemma ToldValid(c: Completion, back: seq<Block>)
    requires Ready(c) && SameContents(c.blocks, back) && Fresh(back, {})
    ensures Valid(c.(blocks := back, finish := Told(c)))
  {
    hide BlocksValid, Fresh, SameContents, DistinctCalls;
    ReadyFacts(c);
    SameComplete(c.blocks, back);
    assert BlocksValid(back) by { FreshValid(back); }
  }

  /** A written response reads back as what it was written from, but for a stop that hides a tool call. */
  lemma Back(codec: Codec, g: Generator, env: Option<Envelope>, c: Completion) returns (back: seq<Block>)
    requires Sound(codec) && Generates(g) && Ready(c) && Write(codec, g, env, c).Some?
    requires forall k :: 0 <= k < |c.blocks| && StatusOf(c.blocks[k]).Incomplete? ==> c.finish.Cut?
    ensures SameContents(c.blocks, back)
    ensures Parse(codec, Write(codec, g, env, c).value) == Some(c.(blocks := back, finish := Told(c)))
  {
    hide Sound, Generates, ParseItems, WriteItems, BridgeCounts.ParseOpenAI, BridgeCounts.ResponsesUsage, Valid, HasTools, SameContents, Fresh;
    hide TopLevel, WithUsage, OptionalString, StringOrEmpty, IntOrZero, RequiredString, Meaningful, ParseFinish, RequiredArray, Observed;
    ReadyFacts(c);
    var status := if c.finish.Cut? then Incomplete else Completed;
    back := ItemsBack(codec, g, c.id, c.blocks, status, 0, {});
    assert c.blocks[0..] == c.blocks;
    SameComplete(c.blocks, back);
    ToldValid(c, back);
    var output, e := WriteItems(codec, g, c.id, c.blocks, status, 0, {}).value, env.value;
    var top := WithUsage(TopLevel(c, output, e), c);
    TopKeys(c, output, e);
    TopStrings(c, output, e);
    TopEnds(c, output, e);
    if c.usage.Some? {
      BridgeCounts.ResponsesUsageBack(top, c.usage.value);
    } else {
      BridgeCounts.NoUsage(top);
    }
  }

  lemma TopKeys(c: Completion, output: seq<Json>, e: Envelope)
    ensures forall k :: k in WithUsage(TopLevel(c, output, e), c) ==>
              k in {Id, Object, Model, Status, Error, IncompleteDetails, Moderation, Output, Usage} || Observed(k)
  {
    hide BridgeCounts.ResponsesUsage;
  }

  lemma TopStrings(c: Completion, output: seq<Json>, e: Envelope)
    requires 0 <= c.created <= BridgeCounts.U.MAX
    ensures var top := WithUsage(TopLevel(c, output, e), c);
            && OptionalString(top, Object) == Some(Some(ResponseObject))
            && StringOrEmpty(top, Id) == Some(c.id) && StringOrEmpty(top, Model) == Some(c.model)
            && IntOrZero(top, CreatedAt) == Some(c.created)
  {
    hide BridgeCounts.ResponsesUsage;
  }

  lemma TopEnds(c: Completion, output: seq<Json>, e: Envelope)
    ensures var top, status := WithUsage(TopLevel(c, output, e), c), if c.finish.Cut? then Incomplete else Completed;
            && RequiredString(top, Status) == Some(status) && !Meaningful(top, Error) && !Meaningful(top, Moderation)
            && ParseFinish(top, status) == Some(if c.finish.Cut? then Cut else Stopped)
            && RequiredArray(top, Output) == Some(output)
            && (c.usage.None? ==> Usage !in top)
            && (c.usage.Some? ==> Usage in top && top[Usage] == BridgeCounts.ResponsesUsage(c.usage.value))
  {
    hide BridgeCounts.ResponsesUsage;
  }

  lemma ParsedTyped(codec: Codec, j: Json)
    requires Parse(codec, j).Some?
    ensures var c := Parse(codec, j).value; Typed(c) && !(c.finish.Stopped? && HasTools(c.blocks))
  {
    hide ParseItems, Valid, HasTools;
  }

  // ----- the loop -----

  method FindEnd(bs: seq<Block>, response: Word, i: nat) returns (j: nat)
    requires i < |bs|
    ensures j == FirstEnd(bs, response, i)
  {
    j := i + 1;
    if bs[i].TextBlock? {
      var item, status := bs[i].item, ItemStatus(bs[i].status, response);
      while !item.Empty? && j < |bs| && bs[j].TextBlock? && bs[j].item == item && ItemStatus(bs[j].status, response) == status
        invariant i < j <= |bs|
        invariant RunEnd(bs, j, item, status, response) == RunEnd(bs, i + 1, item, status, response)
      {
        j := j + 1;
      }
    }
  }

  /** What has been written so far, followed by what remains to be. */
  ghost function Joined(out: seq<Json>, rest: Option<seq<Json>>): Option<seq<Json>> {
    if rest.None? then None else Some(out + rest.value)
  }

  lemma JoinedStep(out: seq<Json>, first: Json, rest: Option<seq<Json>>)
    ensures Joined(out, if rest.None? then None else Some([first] + rest.value)) == Joined(out + [first], rest)
  {
    if rest.Some? {
      assert out + ([first] + rest.value) == out + [first] + rest.value;
    }
  }

  lemma WriteUnfolds(codec: Codec, g: Generator, id: Word, bs: seq<Block>, response: Word, i: nat, seen: set<Word>)
    requires i < |bs|
    ensures var item := FirstItem(g, id, bs, i);
            var rest := WriteItems(codec, g, id, bs, response, FirstEnd(bs, response, i), seen + {item});
            WriteItems(codec, g, id, bs, response, i, seen) ==
              if item in seen || rest.None? then None else Some([FirstJson(codec, bs, response, i, item)] + rest.value)
  {
    hide FirstItem, FirstJson, FirstEnd, RunEnd;
  }

  lemma WriteStep(codec: Codec, g: Generator, id: Word, bs: seq<Block>, response: Word, i: nat, seen: set<Word>, out: seq<Json>)
    requires i < |bs|
    ensures var item := FirstItem(g, id, bs, i);
            Joined(out, WriteItems(codec, g, id, bs, response, i, seen)) ==
              if item in seen then None
              else Joined(out + [FirstJson(codec, bs, response, i, item)],
                          WriteItems(codec, g, id, bs, response, FirstEnd(bs, response, i), seen + {item}))
  {
    hide FirstItem, FirstJson, FirstEnd, RunEnd, WriteItems;
    var item := FirstItem(g, id, bs, i);
    WriteUnfolds(codec, g, id, bs, response, i, seen);
    JoinedStep(out, FirstJson(codec, bs, response, i, item), WriteItems(codec, g, id, bs, response, FirstEnd(bs, response, i), seen + {item}));
  }

  lemma NothingToWrite(codec: Codec, g: Generator, id: Word, bs: seq<Block>, response: Word, seen: set<Word>)
    ensures WriteItems(codec, g, id, bs, response, |bs|, seen) == Some([])
  {
    hide FirstItem, FirstJson, FirstEnd;
  }

  lemma JoinedNothing(out: seq<Json>, all: Option<seq<Json>>)
    ensures Joined(out, Some([])) == Some(out) && Joined([], all) == all
  {
    assert out + [] == out;
    assert all.Some? ==> [] + all.value == all.value;
  }

  lemma WriteEnds(codec: Codec, g: Generator, id: Word, bs: seq<Block>, response: Word, seen: set<Word>, out: seq<Json>, all: Option<seq<Json>>)
    ensures Joined(out, WriteItems(codec, g, id, bs, response, |bs|, seen)) == Some(out)
    ensures Joined([], all) == all
  {
    hide *;
    NothingToWrite(codec, g, id, bs, response, seen);
    JoinedNothing(out, all);
  }

  /** The loop that writes the items, stepping over runs of texts of one item. */
  method EmitItems(codec: Codec, g: Generator, id: Word, bs: seq<Block>, response: Word) returns (items: Option<seq<Json>>)
    ensures items == WriteItems(codec, g, id, bs, response, 0, {})
  {
    hide FirstItem, FirstJson, FirstEnd, WriteItems, Joined;
    var out: seq<Json>, seen: set<Word>, i := [], {}, 0;
    ghost var all := WriteItems(codec, g, id, bs, response, 0, {});
    WriteEnds(codec, g, id, bs, response, {}, [], all);
    while i < |bs|
      invariant i <= |bs| && Joined(out, WriteItems(codec, g, id, bs, response, i, seen)) == all
    {
      WriteStep(codec, g, id, bs, response, i, seen, out);
      var item := FirstItem(g, id, bs, i);
      if item in seen {
        return None;
      }
      var j := FindEnd(bs, response, i);
      out := out + [FirstJson(codec, bs, response, i, item)];
      seen := seen + {item};
      i := j;
    }
    WriteEnds(codec, g, id, bs, response, seen, out, all);
    return Some(out);
  }
}
