/**
 Translating a response between two contracts (internal/bridge/response.go:18-59, 291-341,
 1719-1732): parse, fill in what is missing, write. Reading the translation back in the
 destination's contract gives the source's meaning.
 */
module BridgeTranslate {
  import opened Wrappers
  import opened BridgeJson
  import opened BridgeCompletion
  import U = BridgeUsage
  import BridgeChat
  import BridgeItems
  import BridgeMessages
  import BridgeGemini

  /** The codec, the identity generator, the destination's identity grammar, and the client request's echo. */
  datatype Host = Host(codec: Codec, gen: Generator, identity: (U.Protocol, Word, Word) -> bool, envelope: Option<BridgeItems.Envelope>)

  ghost predicate HostOk(h: Host) {
    Sound(h.codec) && Generates(h.gen) && 0 <= h.gen.now <= U.MAX
  }

  function Parse(h: Host, p: U.Protocol, body: Json): Option<Completion> {
    match p
    case OpenAIChat => BridgeChat.Parse(h.codec, body)
    case OpenAIResponses => BridgeItems.Parse(h.codec, body)
    case Anthropic => BridgeMessages.Parse(body)
    case Gemini => BridgeGemini.Parse(body, false)
    case GeminiCodeAssist => BridgeGemini.Parse(body, true)
  }

  predicate IdentitiesLegal(h: Host, p: U.Protocol, bs: seq<Block>) {
    forall i :: 0 <= i < |bs| && bs[i].ToolBlock? ==> h.identity(p, bs[i].call.name, bs[i].call.callId)
  }

  function Write(h: Host, p: U.Protocol, c: Completion): Option<Json> {
    match p
    case OpenAIChat => BridgeChat.Write(h.codec, c)
    case OpenAIResponses => BridgeItems.Write(h.codec, h.gen, h.envelope, c)
    case Anthropic => BridgeMessages.Write(c)
    case Gemini => BridgeGemini.Write(c, false)
    case GeminiCodeAssist => BridgeGemini.Write(c, true)
  }

  function Marshal(h: Host, p: U.Protocol, c: Completion): Option<Json> {
    var _ :- Need(Valid(c) && !c.id.Empty? && IdentitiesLegal(h, p, c.blocks));
    Write(h, p, c)
  }

  /** The source's completion with its model and identities filled in. */
  function Completed(h: Host, c: Completion, fallback: Word): Option<Completion> {
    var model := if c.model.Empty? then fallback else c.model;
    var _ :- Need(!model.Empty?);
    EnsureIdentities(h.gen, c.(model := model))
  }

  function Translate(h: Host, from: U.Protocol, to: U.Protocol, body: Json, fallback: Word): Option<Json> {
    if from == to then Some(body)
    else
      var c :- Parse(h, from, body);
      var full :- Completed(h, c, fallback);
      Marshal(h, to, full)
  }

  // ----- meaning -----

  /** The same text, or the same call under the same identity, or under a new one where it had none. */
  predicate SameBlock(a: Block, b: Block) {
    if a.TextBlock? then b.TextBlock? && b.text == a.text
    else b.ToolBlock? && b.call.name == a.call.name && b.call.args == a.call.args && !b.call.callId.Empty?
         && (a.call.callId.Empty? || b.call.callId == a.call.callId)
  }

  /** What a client reads in `r` is what the provider said in `c`. */
  predicate SameMeaning(c: Completion, fallback: Word, r: Completion) {
    && r.model == (if c.model.Empty? then fallback else c.model)
    && r.finish == c.finish && r.usage == c.usage
    && |r.blocks| == |c.blocks| && forall i :: 0 <= i < |c.blocks| ==> SameBlock(c.blocks[i], r.blocks[i])
  }

  lemma ParsedTyped(h: Host, p: U.Protocol, body: Json)
    requires Parse(h, p, body).Some?
    ensures var c := Parse(h, p, body).value;
            && Typed(c) && (!p.OpenAIResponses? ==> Plain(c.blocks))
            && (c.finish.Stopped? && HasTools(c.blocks) ==> p.Anthropic?)
  {
    hide BridgeChat.Parse, BridgeItems.Parse, BridgeMessages.Parse, BridgeGemini.Parse, Typed, Plain, HasTools;
    match p
    case OpenAIChat => BridgeChat.ParsedTyped(h.codec, body);
    case OpenAIResponses => BridgeItems.ParsedTyped(h.codec, body);
    case Anthropic => BridgeMessages.ParsedTyped(body);
    case Gemini => BridgeGemini.ParsedTyped(body, false);
    case GeminiCodeAssist => BridgeGemini.ParsedTyped(body, true);
  }

  /** Filling in keeps what was there; the completion that reaches a writer is ready. */
  lemma CompletedReady(h: Host, c: Completion, fallback: Word)
    requires HostOk(h) && Typed(c) && Completed(h, c, fallback).Some? && Valid(Completed(h, c, fallback).value)
    ensures var full := Completed(h, c, fallback).value;
            && Ready(full) && full.model == (if c.model.Empty? then fallback else c.model)
            && full.finish == c.finish && full.usage == c.usage && |full.blocks| == |c.blocks|
            && (forall i :: 0 <= i < |c.blocks| ==> Completes(c.blocks[i], full.blocks[i]))
  {
    hide BlocksValid, FillIds, Sound, Generates, DistinctCalls, Identified, U.Valid, HasTools, Completes;
    var model := if c.model.Empty? then fallback else c.model;
    IdentitiesComplete(h.gen, c.(model := model));
  }

  lemma CompletesTools(a: seq<Block>, b: seq<Block>)
    requires |a| == |b| && forall i :: 0 <= i < |a| ==> Completes(a[i], b[i])
    ensures HasTools(a) <==> HasTools(b)
    ensures Plain(a) ==> Plain(b)
  {
    assert forall i :: 0 <= i < |a| ==> (a[i].ToolBlock? <==> b[i].ToolBlock?);
  }

  /** The blocks read back, against the source's. */
  lemma SameBlocks(a: seq<Block>, full: seq<Block>, back: seq<Block>)
    requires |a| == |full| == |back| && Identified(full, |full|)
    requires forall i :: 0 <= i < |a| ==> Completes(a[i], full[i]) && Carried(full[i]) == Carried(back[i])
    ensures forall i :: 0 <= i < |a| ==> SameBlock(a[i], back[i])
  {
    forall i | 0 <= i < |a| ensures SameBlock(a[i], back[i]) {
      assert Completes(a[i], full[i]) && Carried(full[i]) == Carried(back[i]);
    }
  }

  /** Reading back what was written: refused only by Chat Completions for a tool call under a stop. */
  lemma Back(h: Host, p: U.Protocol, c: Completion) returns (blocks: seq<Block>)
    requires HostOk(h) && Ready(c) && Marshal(h, p, c).Some? && (p.OpenAIResponses? ==> Plain(c.blocks))
    ensures |blocks| == |c.blocks| && forall i :: 0 <= i < |blocks| ==> Carried(c.blocks[i]) == Carried(blocks[i])
    ensures var r, hidden := Parse(h, p, Marshal(h, p, c).value), c.finish.Stopped? && HasTools(c.blocks);
            && (r.None? <==> hidden && p.OpenAIChat?)
            && (r.Some? ==> && r.value.id == c.id && r.value.model == c.model && r.value.usage == c.usage && r.value.blocks == blocks
                            && ((p.OpenAIChat? || p.OpenAIResponses?) ==> r.value.created == c.created)
                            && r.value.finish == (if hidden && !p.Anthropic? then ToolCalling else c.finish))
  {
    hide BridgeChat.Parse, BridgeItems.Parse, BridgeMessages.Parse, BridgeGemini.Parse, Ready, HasTools, Sound, Generates;
    hide BridgeChat.Write, BridgeItems.Write, BridgeMessages.Write, BridgeGemini.Write, Valid, IdentitiesLegal;
    blocks := CarriedAll(c.blocks);
    match p
    case OpenAIChat => BridgeChat.Back(h.codec, c);
    case OpenAIResponses => blocks := BridgeItems.Back(h.codec, h.gen, h.envelope, c);
    case Anthropic => BridgeMessages.Back(c);
    case Gemini => BridgeGemini.Back(c, false);
    case GeminiCodeAssist => BridgeGemini.Back(c, true);
  }

  /**
   Meaning across contracts. A translation read back in the destination's contract has the
   model, the ordered texts and calls, the termination and the usage of the source exactly when
   the source did not end in an ordinary stop with tool calls in it; and whenever it reads back,
   every call has an identity of its own, even where the source gave none.
   */
  lemma MeaningPreserved(h: Host, from: U.Protocol, to: U.Protocol, body: Json, fallback: Word)
    requires HostOk(h) && from != to && Translate(h, from, to, body, fallback).Some?
    ensures var c := Parse(h, from, body);
            var r := Parse(h, to, Translate(h, from, to, body, fallback).value);
            && c.Some?
            && (r.Some? && SameMeaning(c.value, fallback, r.value) <==> !(c.value.finish.Stopped? && HasTools(c.value.blocks)))
            && (r.Some? ==> DistinctCalls(r.value.blocks) && Identified(r.value.blocks, |r.value.blocks|))
  {
    hide Parse, Write, Ready, Typed, HasTools, Sound, Generates, DistinctCalls, Identified, Plain, Valid, IdentitiesLegal, EnsureIdentities, SameBlock, Completes, Carried;
    var c := Parse(h, from, body).value;
    ParsedTyped(h, from, body);
    var full := Completed(h, c, fallback).value;
    CompletedReady(h, c, fallback);
    CompletesTools(c.blocks, full.blocks);
    var blocks := Back(h, to, full);
    assert DistinctCalls(full.blocks) && Identified(full.blocks, |full.blocks|) by { ReadyIds(full); }
    SameBlocks(c.blocks, full.blocks, blocks);
    SameIds(full.blocks, blocks);
  }

  lemma ReadyIds(c: Completion)
    requires Ready(c)
    ensures DistinctCalls(c.blocks) && Identified(c.blocks, |c.blocks|)
  {
  }

  lemma SameIds(a: seq<Block>, b: seq<Block>)
    requires |a| == |b| && forall i :: 0 <= i < |a| ==> Carried(a[i]) == Carried(b[i])
    requires DistinctCalls(a) && Identified(a, |a|)
    ensures DistinctCalls(b) && Identified(b, |b|)
  {
    assert forall i :: 0 <= i < |a| ==> (b[i].ToolBlock? <==> a[i].ToolBlock?) && (a[i].ToolBlock? ==> a[i].call.callId == b[i].call.callId);
  }

  /** Only an Anthropic source can end in a stop that has tool calls in it. */
  lemma StopHidesToolsOnlyFromAnthropic(h: Host, from: U.Protocol, body: Json)
    requires Parse(h, from, body).Some? && !from.Anthropic?
    ensures var c := Parse(h, from, body).value; !(c.finish.Stopped? && HasTools(c.blocks))
  {
    hide Parse, Typed, HasTools, Plain;
    ParsedTyped(h, from, body);
  }

  function OneCall(name: Word, id: Word): Block {
    ToolBlock(Call(id, Empty, name, Obj(map[]), Empty))
  }

  /** A message that ends its turn with a tool call in it. */
  function EndsTurn(name: Word, id: Word, model: Word, created: int): Completion {
    Completion(id, model, created, [OneCall(name, id)], Stopped, Some(U.Usage(0, 0, 0, 0)))
  }

  lemma EndsTurnReady(name: Word, id: Word, model: Word, created: int)
    requires !name.Empty? && !id.Empty? && 0 <= created <= U.MAX
    ensures var c := EndsTurn(name, id, model, created); Ready(c) && HasTools(c.blocks) && CarriedAll(c.blocks) == c.blocks
  {
    var c := EndsTurn(name, id, model, created);
    var bs := c.blocks;
    assert TakenBy(bs[..0]) == Taken({}, {});
    assert bs[0].ToolBlock?;
    U.CheckedIsExact(0, 0);
  }

  lemma EndsTurnCompleted(h: Host, name: Word, id: Word, model: Word)
    requires !id.Empty? && !model.Empty?
    ensures Completed(h, EndsTurn(name, id, model, 0), model) == Some(EndsTurn(name, id, model, h.gen.now))
  {
    var bs := [OneCall(name, id)];
    assert FillIds(h.gen, id, bs, 0) == Some(bs);
    assert FillIds(h.gen, id, bs, 1) == Some(bs);
  }

  lemma EndsTurnWritten(h: Host, name: Word, id: Word, model: Word)
    requires !name.Empty? && !id.Empty?
    ensures var c := EndsTurn(name, id, model, 0);
            var body := BridgeMessages.Write(c);
            body.Some? && Parse(h, U.Anthropic, body.value) == Some(c)
  {
    hide BridgeMessages.Parse, Ready, HasTools;
    EndsTurnReady(name, id, model, 0);
    BridgeMessages.Back(EndsTurn(name, id, model, 0));
  }

  lemma EndsTurnMarshals(h: Host, name: Word, id: Word, model: Word)
    requires HostOk(h) && !name.Empty? && !id.Empty? && h.identity(U.Gemini, name, id)
    ensures var full := EndsTurn(name, id, model, h.gen.now);
            Ready(full) && HasTools(full.blocks) && Marshal(h, U.Gemini, full).Some?
  {
    hide Ready, Valid, HasTools, Sound, Generates;
    var full := EndsTurn(name, id, model, h.gen.now);
    EndsTurnReady(name, id, model, h.gen.now);
    ReadyValid(full);
  }

  /**
   The failing case: an Anthropic message that ends its turn with a tool call in it becomes, read
   back from Gemini, one that ended to call the tool.
   */
  lemma StopBecomesToolCall(h: Host, name: Word, id: Word, model: Word)
    requires HostOk(h) && !name.Empty? && !id.Empty? && !model.Empty? && h.identity(U.Gemini, name, id)
    ensures var body := BridgeMessages.Write(EndsTurn(name, id, model, 0));
            && body.Some?
            && Parse(h, U.Anthropic, body.value) == Some(EndsTurn(name, id, model, 0))
            && var out := Translate(h, U.Anthropic, U.Gemini, body.value, model);
               out.Some? && Parse(h, U.Gemini, out.value).Some? && Parse(h, U.Gemini, out.value).value.finish == ToolCalling
  {
    hide Parse, Marshal, Completed, BridgeMessages.Write, HostOk, Ready, HasTools;
    EndsTurnWritten(h, name, id, model);
    EndsTurnCompleted(h, name, id, model);
    EndsTurnMarshals(h, name, id, model);
    var blocks := Back(h, U.Gemini, EndsTurn(name, id, model, h.gen.now));
  }

  lemma ReadyValid(c: Completion)
    requires Ready(c)
    ensures Valid(c)
  {
  }
}
