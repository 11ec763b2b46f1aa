/**
 What a response body says, contract by contract, on the members of its JSON
 (internal/bridge/response.go:521-1426): which completion it stands for, or none. A shape is a
 relation between a body and a completion; no reader is used to state it.
 */
module BridgeShape {
  import opened Wrappers
  import opened BridgeJson
  import opened BridgeCompletion
  import U = BridgeUsage

  const INT64_MAX: int := 9_223_372_036_854_775_807

  // ----- members -----

  predicate Has(o: Fields, k: Key, j: Json) {
    k in o && o[k] == j
  }

  /** The member is not there, or null. */
  predicate Missing(o: Fields, k: Key) {
    k in o ==> o[k] == Null
  }

  /** The member is not there, null, or empty. */
  predicate Nothing(o: Fields, k: Key) {
    k in o ==> o[k] == Null || o[k] == Arr([]) || o[k] == Obj(map[]) || o[k] == Str(Empty)
  }

  predicate Members(o: Fields, names: set<Key>) {
    o.Keys <= names
  }

  /** A string, or no string and the empty word. */
  predicate TextOr(o: Fields, k: Key, w: Word) {
    Has(o, k, Str(w)) || (Missing(o, k) && w == Empty)
  }

  predicate Count(o: Fields, k: Key, n: int) {
    Has(o, k, Num(n)) && 0 <= n <= INT64_MAX
  }

  /** A count, or none and zero. */
  predicate CountOr(o: Fields, k: Key, n: int) {
    Count(o, k, n) || (Missing(o, k) && n == 0)
  }

  predicate ZeroOr(o: Fields, k: Key) {
    Missing(o, k) || Has(o, k, Num(0))
  }

  // ----- counters -----

  /** Natural counters whose sums fit 64 bits, with no more cached than there is input. */
  predicate Sensible(u: U.Usage) {
    && u.input >= 0 && u.output >= 0 && u.read >= 0 && u.write >= 0
    && u.input + u.output <= INT64_MAX && u.read + u.write <= u.input
  }

  /** A reported total, if there is one, is the sum. */
  predicate TotalAgrees(o: Fields, k: Key, u: U.Usage) {
    Missing(o, k) || Has(o, k, Num(u.input + u.output))
  }

  /** The cached counts inside the input details; every other detail is absent or zero. */
  predicate CachedSays(o: Fields, k: Key, others: set<Key>, u: U.Usage) {
    if k in o && o[k].Obj? then
      var d := o[k].fields;
      && Members(d, {CachedTokens, CacheWriteTokens} + others)
      && CountOr(d, CachedTokens, u.read) && CountOr(d, CacheWriteTokens, u.write)
      && forall n :: n in others ==> ZeroOr(d, n)
    else Missing(o, k) && u.read == 0 && u.write == 0
  }

  predicate ZeroDetails(o: Fields, k: Key, names: set<Key>) {
    if k in o && o[k].Obj? then Members(o[k].fields, names) && forall n :: n in names ==> ZeroOr(o[k].fields, n)
    else Missing(o, k)
  }

  /** Cache hits and misses come together, are the cached and the uncached input. */
  predicate HitsSay(o: Fields, u: U.Usage) {
    || (Missing(o, PromptCacheHit) && Missing(o, PromptCacheMiss))
    || (Count(o, PromptCacheHit, u.read) && Count(o, PromptCacheMiss, u.input - u.read))
  }

  predicate ChatCounts(o: Fields, u: U.Usage) {
    && Members(o, {PromptTokens, CompletionTokens, TotalTokens, PromptTokensDetails, CompletionTokensDetails, PromptCacheHit, PromptCacheMiss})
    && Count(o, PromptTokens, u.input) && Count(o, CompletionTokens, u.output) && TotalAgrees(o, TotalTokens, u)
    && CachedSays(o, PromptTokensDetails, {AudioTokens, ImageTokens, TextTokens}, u) && HitsSay(o, u)
    && ZeroDetails(o, CompletionTokensDetails, {AcceptedPrediction, AudioTokens, ReasoningTokens, RejectedPrediction, TextTokens})
  }

  predicate ResponsesCounts(o: Fields, u: U.Usage) {
    && Members(o, {InputTokens, OutputTokens, TotalTokens, InputTokensDetails, OutputTokensDetails})
    && Count(o, InputTokens, u.input) && Count(o, OutputTokens, u.output) && TotalAgrees(o, TotalTokens, u)
    && CachedSays(o, InputTokensDetails, {}, u) && ZeroDetails(o, OutputTokensDetails, {ReasoningTokens})
  }

  /** Anthropic's input leaves the cache out. */
  predicate AnthropicCounts(o: Fields, u: U.Usage) {
    && Members(o, {InputTokens, OutputTokens, CacheReadInput, CacheCreationInput})
    && Count(o, InputTokens, u.input - u.read - u.write) && Count(o, OutputTokens, u.output)
    && CountOr(o, CacheReadInput, u.read) && CountOr(o, CacheCreationInput, u.write)
  }

  predicate GeminiCounts(o: Fields, u: U.Usage) {
    && Members(o, {PromptTokenCount, CandidatesTokenCount, TotalTokenCount, CachedContentTokenCount})
    && Count(o, PromptTokenCount, u.input) && Count(o, CandidatesTokenCount, u.output) && TotalAgrees(o, TotalTokenCount, u)
    && CountOr(o, CachedContentTokenCount, u.read) && u.write == 0
  }

  datatype Contract = Chat | Responses | Messages | Generate

  predicate CountsSay(p: Contract, o: Fields, u: U.Usage) {
    match p
    case Chat => ChatCounts(o, u)
    case Responses => ResponsesCounts(o, u)
    case Messages => AnthropicCounts(o, u)
    case Generate => GeminiCounts(o, u)
  }

  /** The usage member: none, or an object of sensible counters. */
  predicate UsageSays(p: Contract, top: Fields, usage: Option<U.Usage>) {
    var k := if p.Generate? then UsageMetadata else Usage;
    if usage.None? then Missing(top, k)
    else k in top && top[k].Obj? && CountsSay(p, top[k].fields, usage.value) && Sensible(usage.value)
  }

  // ----- what holds of every completion -----

  function ItemId(b: Block): Word {
    if b.TextBlock? then b.item else b.call.item
  }

  /** Calls have names and object arguments, no two the same identity, and no item identity used before. */
  ghost predicate Coherent(bs: seq<Block>) {
    && (forall i :: 0 <= i < |bs| && bs[i].ToolBlock? ==> !bs[i].call.name.Empty? && bs[i].call.args.Obj?)
    && (forall i, j :: 0 <= i < j < |bs| && bs[i].ToolBlock? && bs[j].ToolBlock? && bs[i].call.callId == bs[j].call.callId ==>
          bs[i].call.callId.Empty?)
    && (forall i, j :: 0 <= i < j < |bs| && bs[j].ToolBlock? && ItemId(bs[i]) == bs[j].call.item ==> bs[j].call.item.Empty?)
  }

  predicate CallsTool(bs: seq<Block>) {
    exists i :: 0 <= i < |bs| && bs[i].ToolBlock?
  }

  // ----- Anthropic Messages -----

  predicate MessagesBlock(j: Json, b: Block) {
    && j.Obj?
    && var o := j.fields;
       match b
       case TextBlock(text, item, status) =>
         && Has(o, Type, Str(TextType)) && Has(o, Text, Str(text)) && item == Empty && status == Empty
         && Members(o, {Type, Text, Citations}) && Nothing(o, Citations)
       case ToolBlock(c) =>
         && Has(o, Type, Str(ToolUse)) && Has(o, Id, Str(c.callId)) && !c.callId.Empty? && Has(o, Name, Str(c.name))
         && Has(o, Input, c.args) && c.args.Obj? && c.item == Empty && c.status == Empty
         && Members(o, {Type, Id, Name, Input, Caller}) && Nothing(o, Caller)
  }

  /** end_turn and stop_sequence are a stop, tool_use a tool call, max_tokens a cut; a stop sequence is named, and only then. */
  predicate MessagesFinish(o: Fields, f: Finish) {
    match f
    case Stopped =>
      || (Has(o, StopReason, Str(EndTurn)) && Nothing(o, StopSequenceKey))
      || (Has(o, StopReason, Str(StopSequence)) && StopSequenceKey in o && o[StopSequenceKey].Str?)
    case ToolCalling => Has(o, StopReason, Str(ToolUse)) && Nothing(o, StopSequenceKey)
    case Cut => Has(o, StopReason, Str(MaxTokens)) && Nothing(o, StopSequenceKey)
  }

  ghost predicate MessagesShape(j: Json, c: Completion) {
    && j.Obj?
    && var o := j.fields;
       && Members(o, {Id, Type, Role, Model, Content, StopReason, StopSequenceKey, Usage})
       && (Missing(o, Type) || Has(o, Type, Str(MessageType))) && Has(o, Role, Str(Assistant))
       && TextOr(o, Id, c.id) && TextOr(o, Model, c.model) && c.created == 0
       && MessagesFinish(o, c.finish) && UsageSays(Messages, o, c.usage)
       && Content in o && o[Content].Arr? && |o[Content].items| == |c.blocks|
       && forall i :: 0 <= i < |c.blocks| ==> MessagesBlock(o[Content].items[i], c.blocks[i])
  }

  // ----- OpenAI Chat Completions -----

  /** The argument text decodes to the arguments. */
  ghost predicate ArgumentsSay(codec: Codec, o: Fields, args: Json) {
    exists w :: Has(o, Arguments, Str(w)) && codec.decode(w) == Some(args)
  }

  ghost predicate ChatCall(codec: Codec, j: Json, b: Block) {
    && j.Obj? && b.ToolBlock?
    && var o, c := j.fields, b.call;
       && Members(o, {Id, Type, Function}) && Has(o, Id, Str(c.callId)) && !c.callId.Empty? && Has(o, Type, Str(FunctionType))
       && Function in o && o[Function].Obj? && c.item == Empty && c.status == Empty
       && var fn := o[Function].fields;
          Members(fn, {Name, Arguments}) && Has(fn, Name, Str(c.name)) && ArgumentsSay(codec, fn, c.args)
  }

  /** The content, if there is any, is one text before the calls. */
  ghost predicate ChatText(o: Fields, text: seq<Block>) {
    (Missing(o, Content) && text == []) || (exists w :: Has(o, Content, Str(w)) && text == [TextBlock(w, Empty, Empty)])
  }

  ghost predicate ChatMessage(codec: Codec, o: Fields, bs: seq<Block>) {
    && Members(o, {Role, Content, ToolCalls, Refusal, Annotations, Audio, FunctionCall}) && Has(o, Role, Str(Assistant))
    && Nothing(o, Refusal) && Nothing(o, Annotations) && Nothing(o, Audio) && Nothing(o, FunctionCall)
    && exists n: nat :: n <= |bs| && ChatText(o, bs[..n])
         && if ToolCalls in o then
              && o[ToolCalls].Arr? && |o[ToolCalls].items| == |bs| - n
              && forall i :: 0 <= i < |bs| - n ==> ChatCall(codec, o[ToolCalls].items[i], bs[n + i])
            else n == |bs|
  }

  predicate ChatFinish(o: Fields, f: Finish) {
    match f
    case Stopped => Has(o, FinishReason, Str(Stop))
    case ToolCalling => Has(o, FinishReason, Str(ToolCallsReason))
    case Cut => Has(o, FinishReason, Str(Length))
  }

  ghost predicate ChatChoice(codec: Codec, j: Json, c: Completion) {
    && j.Obj?
    && var o := j.fields;
       && Members(o, {Index, Message, FinishReason, Logprobs}) && ZeroOr(o, Index) && Nothing(o, Logprobs)
       && ChatFinish(o, c.finish) && Message in o && o[Message].Obj? && ChatMessage(codec, o[Message].fields, c.blocks)
  }

  ghost predicate ChatShape(codec: Codec, j: Json, c: Completion) {
    && j.Obj?
    && var o := j.fields;
       && Members(o, {Id, Object, Created, Model, Choices, Usage, SystemFingerprint, ServiceTier})
       && (Missing(o, Object) || Has(o, Object, Str(ChatCompletion)))
       && TextOr(o, Id, c.id) && TextOr(o, Model, c.model) && CountOr(o, Created, c.created)
       && Choices in o && o[Choices].Arr? && |o[Choices].items| == 1 && ChatChoice(codec, o[Choices].items[0], c)
       && UsageSays(Chat, o, c.usage)
  }

  // ----- OpenAI Responses -----

  /** A part of a message item. */
  predicate ItemText(j: Json, w: Word) {
    && j.Obj? && Has(j.fields, Type, Str(OutputText)) && Has(j.fields, Text, Str(w))
    && Members(j.fields, {Type, Text, Annotations, Logprobs}) && Nothing(j.fields, Annotations) && Nothing(j.fields, Logprobs)
  }

  /** An item is completed, or incomplete inside an incomplete response. */
  predicate ItemStatusSays(o: Fields, response: Word, status: Word) {
    Has(o, Status, Str(status)) && (status == Completed || (status == Incomplete && response == Incomplete))
  }

  ghost predicate MessageItemSays(o: Fields, response: Word, bs: seq<Block>) {
    && Members(o, {Id, Type, Status, Role, Content}) && Has(o, Role, Str(Assistant))
    && (exists w :: TextOr(o, Id, w)) && (exists w :: ItemStatusSays(o, response, w))
    && Content in o && o[Content].Arr? && |o[Content].items| == |bs|
    && forall i :: 0 <= i < |bs| ==>
         && bs[i].TextBlock? && ItemText(o[Content].items[i], bs[i].text)
         && TextOr(o, Id, bs[i].item) && ItemStatusSays(o, response, bs[i].status)
  }

  ghost predicate CallItemSays(codec: Codec, o: Fields, response: Word, bs: seq<Block>) {
    && |bs| == 1 && bs[0].ToolBlock?
    && var c := bs[0].call;
       && Members(o, {Id, Type, Status, CallId, Name, Arguments}) && ItemStatusSays(o, response, c.status)
       && Has(o, Id, Str(c.item)) && !c.item.Empty? && Has(o, CallId, Str(c.callId)) && !c.callId.Empty? && Has(o, Name, Str(c.name))
       && ArgumentsSay(codec, o, c.args)
  }

  ghost predicate ItemSays(codec: Codec, j: Json, response: Word, bs: seq<Block>) {
    && j.Obj?
    && ((Has(j.fields, Type, Str(MessageType)) && MessageItemSays(j.fields, response, bs))
        || (Has(j.fields, Type, Str(FunctionCallType)) && CallItemSays(codec, j.fields, response, bs)))
  }

  /** The items, one after the other, are the blocks. */
  ghost predicate ItemsSay(codec: Codec, js: seq<Json>, response: Word, bs: seq<Block>)
    decreases |js|
  {
    if js == [] then bs == []
    else exists n: nat :: n <= |bs| && ItemSays(codec, js[0], response, bs[..n]) && ItemsSay(codec, js[1..], response, bs[n..])
  }

  /** A completed response stopped, or called its tools if it has any; an incomplete one was cut for its length. */
  predicate ResponsesFinish(o: Fields, bs: seq<Block>, f: Finish) {
    match f
    case Stopped => Has(o, Status, Str(Completed)) && Nothing(o, IncompleteDetails) && !CallsTool(bs)
    case ToolCalling => Has(o, Status, Str(Completed)) && Nothing(o, IncompleteDetails) && CallsTool(bs)
    case Cut => Has(o, Status, Str(Incomplete)) && Has(o, IncompleteDetails, Obj(map[Reason := Str(MaxOutputTokens)]))
  }

  /** The documented members a response may echo, unread. */
  predicate Echoed(k: Key) {
    || k == CreatedAt || k == ParallelToolCalls || k == ToolChoice || k == Tools || k == ServiceTier || k == Text
    || (k.Echo? && k.which < 21)
  }

  ghost predicate ResponsesShape(codec: Codec, j: Json, c: Completion) {
    && j.Obj?
    && var o := j.fields;
       && (forall k :: k in o ==> k in {Id, Object, Model, Status, Error, IncompleteDetails, Moderation, Output, Usage} || Echoed(k))
       && (Missing(o, Object) || Has(o, Object, Str(ResponseObject)))
       && TextOr(o, Id, c.id) && TextOr(o, Model, c.model) && CountOr(o, CreatedAt, c.created)
       && Nothing(o, Error) && Nothing(o, Moderation)
       && ResponsesFinish(o, c.blocks, c.finish) && UsageSays(Responses, o, c.usage)
       && Output in o && o[Output].Arr? && Status in o && o[Status].Str?
       && ItemsSay(codec, o[Output].items, o[Status].word, c.blocks)
  }

  // ----- Gemini -----

  predicate GeminiPart(j: Json, b: Block) {
    && j.Obj?
    && var o := j.fields;
       && Nothing(o, ThoughtSignature) && Nothing(o, PartMetadata) && (Missing(o, Thought) || Has(o, Thought, Bool(false)))
       && match b
          case TextBlock(text, item, status) =>
            && Has(o, Text, Str(text)) && item == Empty && status == Empty
            && Members(o, {Text, Thought, ThoughtSignature, PartMetadata})
          case ToolBlock(c) =>
            && Members(o, {FunctionCallCamel, Thought, ThoughtSignature, PartMetadata})
            && FunctionCallCamel in o && o[FunctionCallCamel].Obj? && c.item == Empty && c.status == Empty
            && var fc := o[FunctionCallCamel].fields;
               && Members(fc, {Id, Name, Args}) && TextOr(fc, Id, c.callId) && Has(fc, Name, Str(c.name))
               && Has(fc, Args, c.args) && c.args.Obj?
  }

  /** STOP is a stop, or a tool call if there are calls; MAX_TOKENS is a cut. */
  predicate GeminiFinish(o: Fields, bs: seq<Block>, f: Finish) {
    match f
    case Stopped => Has(o, FinishReasonCamel, Str(GeminiStop)) && !CallsTool(bs)
    case ToolCalling => Has(o, FinishReasonCamel, Str(GeminiStop)) && CallsTool(bs)
    case Cut => Has(o, FinishReasonCamel, Str(GeminiMaxTokens))
  }

  predicate GeminiCandidate(j: Json, c: Completion) {
    && j.Obj?
    && var o := j.fields;
       && Members(o, {Content, FinishReasonCamel, Index}) && ZeroOr(o, Index) && GeminiFinish(o, c.blocks, c.finish)
       && Content in o && o[Content].Obj?
       && var d := o[Content].fields;
          && Members(d, {Role, Parts}) && Has(d, Role, Str(ModelRole))
          && Parts in d && d[Parts].Arr? && |d[Parts].items| == |c.blocks|
          && forall i :: 0 <= i < |c.blocks| ==> GeminiPart(d[Parts].items[i], c.blocks[i])
  }

  predicate GeminiInner(o: Fields, c: Completion) {
    && Members(o, {Candidates, UsageMetadata, ModelVersion, ResponseId})
    && TextOr(o, ModelVersion, c.model) && TextOr(o, ResponseId, c.id) && c.created == 0
    && Candidates in o && o[Candidates].Arr? && |o[Candidates].items| == 1 && GeminiCandidate(o[Candidates].items[0], c)
    && UsageSays(Generate, o, c.usage)
  }

  /** Code Assist wraps the same response in an envelope. */
  predicate GeminiShape(j: Json, wrapped: bool, c: Completion) {
    && j.Obj?
    && if wrapped then
         Members(j.fields, {Response}) && Response in j.fields && j.fields[Response].Obj? && GeminiInner(j.fields[Response].fields, c)
       else GeminiInner(j.fields, c)
  }
}
