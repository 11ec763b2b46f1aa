/**
 The readers of the four response contracts read exactly what the bodies say
 (internal/bridge/response.go:334-383, 521-1426): a body is accepted as a completion if and only if
 it has the contract's shape for that completion and the completion is coherent.
 */
module BridgeReads {
  import opened Wrappers
  import opened BridgeJson
  import opened BridgeCompletion
  import opened BridgeShape
  import U = BridgeUsage
  import BridgeCounts
  import BridgeChat
  import BridgeItems
  import BridgeMessages
  import BridgeGemini

  // ----- members -----

  lemma Strings(o: Fields, k: Key, w: Word)
    ensures RequiredString(o, k) == Some(w) <==> Has(o, k, Str(w))
    ensures StringOrEmpty(o, k) == Some(w) <==> TextOr(o, k, w)
    ensures OptionalString(o, k) == Some(Some(w)) <==> Has(o, k, Str(w))
    ensures OptionalString(o, k) == Some(None) <==> Missing(o, k)
  {
  }

  lemma Ints(o: Fields, k: Key, n: int)
    ensures RequiredInt(o, k) == Some(n) <==> Count(o, k, n)
    ensures IntOrZero(o, k) == Some(n) <==> CountOr(o, k, n)
    ensures OptionalInt(o, k) == Some(Some(n)) <==> Count(o, k, n)
    ensures OptionalInt(o, k) == Some(None) <==> Missing(o, k)
  {
  }

  lemma Rest(o: Fields, k: Key, names: set<Key>)
    ensures Only(o, names) <==> Members(o, names)
    ensures Meaningful(o, k) <==> !Nothing(o, k)
    ensures Absent(o, k) <==> Missing(o, k)
  {
  }

  lemma ArgumentsExactly(codec: Codec, o: Fields, args: Json)
    ensures RequiredString(o, Arguments).Some? && codec.decode(RequiredString(o, Arguments).value) == Some(args) <==> ArgumentsSay(codec, o, args)
  {
    if Arguments in o && o[Arguments].Str? { assert Has(o, Arguments, Str(o[Arguments].word)); }
  }

  // ----- validity -----

  lemma {:induction false} TakenExactly(bs: seq<Block>, w: Word)
    requires !w.Empty?
    ensures w in TakenBy(bs).calls <==> exists i :: 0 <= i < |bs| && bs[i].ToolBlock? && bs[i].call.callId == w
    ensures w in TakenBy(bs).items <==> exists i :: 0 <= i < |bs| && ItemId(bs[i]) == w
    decreases |bs|
  {
    if bs != [] {
      var n := |bs| - 1;
      var init := bs[..n];
      TakenExactly(init, w);
      assert forall i :: 0 <= i < n ==> init[i] == bs[i];
      if exists i :: 0 <= i < n && init[i].ToolBlock? && init[i].call.callId == w {
        var i :| 0 <= i < n && init[i].ToolBlock? && init[i].call.callId == w;
        assert bs[i].ToolBlock?;
      }
      if exists i :: 0 <= i < n && ItemId(init[i]) == w {
        var i :| 0 <= i < n && ItemId(init[i]) == w;
        assert ItemId(bs[i]) == w;
      }
    }
  }

  lemma BlockValidMeans(bs: seq<Block>, j: nat)
    requires j < |bs| && bs[j].ToolBlock?
    ensures BlockValid(TakenBy(bs[..j]), bs[j]) <==>
              && !bs[j].call.name.Empty? && bs[j].call.args.Obj?
              && (forall i :: 0 <= i < j && bs[i].ToolBlock? && bs[i].call.callId == bs[j].call.callId ==> bs[j].call.callId.Empty?)
              && (forall i :: 0 <= i < j && ItemId(bs[i]) == bs[j].call.item ==> bs[j].call.item.Empty?)
  {
    hide TakenBy;
    var before, c := bs[..j], bs[j].call;
    assert forall i :: 0 <= i < j ==> before[i] == bs[i];
    if !c.callId.Empty? { TakenExactly(before, c.callId); }
    if !c.item.Empty? { TakenExactly(before, c.item); }
  }

  /** Validity of the blocks, said of the whole list. */
  lemma BlocksExactly(bs: seq<Block>)
    ensures BlocksValid(bs) <==> Coherent(bs)
  {
    hide TakenBy, BlockValid;
    forall j | 0 <= j < |bs|
      ensures BlockValid(TakenBy(bs[..j]), bs[j]) <==>
                (bs[j].ToolBlock? ==>
                   && !bs[j].call.name.Empty? && bs[j].call.args.Obj?
                   && (forall i :: 0 <= i < j && bs[i].ToolBlock? && bs[i].call.callId == bs[j].call.callId ==> bs[j].call.callId.Empty?)
                   && (forall i :: 0 <= i < j && ItemId(bs[i]) == bs[j].call.item ==> bs[j].call.item.Empty?))
    {
      if bs[j].ToolBlock? { BlockValidMeans(bs, j); } else { TextIsValid(bs, j); }
    }
    if BlocksValid(bs) {
      assert forall j :: 0 <= j < |bs| ==> BlockValid(TakenBy(bs[..j]), bs[j]);
    }
  }

  lemma TextIsValid(bs: seq<Block>, j: nat)
    requires j < |bs| && bs[j].TextBlock?
    ensures BlockValid(TakenBy(bs[..j]), bs[j])
  {
  }

  lemma SensibleExactly(u: U.Usage)
    requires U.Fits(u)
    ensures U.Valid(u) <==> Sensible(u)
  {
    U.ValidMeans(u);
  }

  lemma ToolsMean(bs: seq<Block>)
    ensures HasTools(bs) <==> CallsTool(bs)
  {
  }

  /** What validity asks of a completion, beyond its counters. */
  ghost predicate Settled(c: Completion) {
    Coherent(c.blocks) && (c.finish.ToolCalling? ==> CallsTool(c.blocks))
  }

  lemma ValidExactly(c: Completion)
    requires c.usage.Some? ==> U.Fits(c.usage.value)
    ensures Valid(c) <==> Settled(c) && (c.usage.Some? ==> Sensible(c.usage.value))
  {
    hide BlocksValid, Coherent, U.Valid, HasTools, CallsTool;
    BlocksExactly(c.blocks);
    ToolsMean(c.blocks);
    if c.usage.Some? { SensibleExactly(c.usage.value); }
  }

  // ----- counters -----

  lemma AnthropicExactly(top: Fields, usage: Option<U.Usage>)
    ensures BridgeCounts.ParseAnthropic(top) == Some(usage) <==> UsageSays(Messages, top, usage)
  {
    Rest(top, Usage, {});
    if Usage in top && top[Usage].Obj? {
      var o := top[Usage].fields;
      Rest(o, Usage, {InputTokens, OutputTokens, CacheReadInput, CacheCreationInput});
      if usage.Some? {
        AnthropicCountsMean(o, usage.value);
      }
    }
  }

  lemma AnthropicCountsMean(o: Fields, u: U.Usage)
    ensures AnthropicCounts(o, u) && Sensible(u) <==>
              && Only(o, {InputTokens, OutputTokens, CacheReadInput, CacheCreationInput})
              && var input, output, read, write :=
                   RequiredInt(o, InputTokens), RequiredInt(o, OutputTokens), IntOrZero(o, CacheReadInput), IntOrZero(o, CacheCreationInput);
                 && input.Some? && output.Some? && read.Some? && write.Some?
                 && U.CheckedAdd(input.value, read.value).Some?
                 && U.CheckedAdd(U.CheckedAdd(input.value, read.value).value, write.value).Some?
                 && u == U.Usage(U.CheckedAdd(U.CheckedAdd(input.value, read.value).value, write.value).value, output.value, read.value, write.value)
                 && U.Valid(u)
  {
    hide U.CheckedAdd, U.Valid, Only, Members, RequiredInt, IntOrZero, Count, CountOr;
    Rest(o, Usage, {InputTokens, OutputTokens, CacheReadInput, CacheCreationInput});
    Ints(o, InputTokens, u.input - u.read - u.write);
    Ints(o, OutputTokens, u.output);
    Ints(o, CacheReadInput, u.read);
    Ints(o, CacheCreationInput, u.write);
    IntsRange(o, InputTokens);
    IntsRange(o, OutputTokens);
    IntsRange(o, CacheReadInput);
    IntsRange(o, CacheCreationInput);
    var input, output, read, write :=
      RequiredInt(o, InputTokens), RequiredInt(o, OutputTokens), IntOrZero(o, CacheReadInput), IntOrZero(o, CacheCreationInput);
    if input.Some? && read.Some? && write.Some? {
      U.CheckedIsExact(input.value, read.value);
      if input.value + read.value <= U.MAX {
        U.CheckedIsExact(input.value + read.value, write.value);
      }
    }
    if U.Fits(u) { SensibleExactly(u); }
  }

  lemma IntsRange(o: Fields, k: Key)
    ensures RequiredInt(o, k).Some? ==> 0 <= RequiredInt(o, k).value <= U.MAX
    ensures IntOrZero(o, k).Some? ==> 0 <= IntOrZero(o, k).value <= U.MAX
    ensures OptionalInt(o, k).Some? && OptionalInt(o, k).value.Some? ==> 0 <= OptionalInt(o, k).value.value <= U.MAX
  {
  }

  lemma CountsExactly(o: Fields, inKey: Key, outKey: Key, totalKey: Key, u: U.Usage)
    ensures BridgeCounts.Counts(o, inKey, outKey, totalKey) == Some((u.input, u.output)) <==>
              Count(o, inKey, u.input) && Count(o, outKey, u.output) && u.input + u.output <= INT64_MAX && TotalAgrees(o, totalKey, u)
  {
    hide U.CheckedAdd, RequiredInt, OptionalInt, Count;
    Ints(o, inKey, u.input);
    Ints(o, outKey, u.output);
    Ints(o, totalKey, u.input + u.output);
    IntsRange(o, inKey);
    IntsRange(o, outKey);
    IntsRange(o, totalKey);
    CountMeans(o, inKey, u.input);
    CountMeans(o, outKey, u.output);
    CountMeans(o, totalKey, u.input + u.output);
    if 0 <= u.input <= U.MAX && 0 <= u.output <= U.MAX {
      U.CheckedIsExact(u.input, u.output);
    }
  }

  lemma CountMeans(o: Fields, k: Key, n: int)
    ensures Count(o, k, n) <==> Has(o, k, Num(n)) && 0 <= n <= U.MAX
  {
  }

  lemma ZeroExactly(o: Fields, names: set<Key>)
    ensures ZeroCounts(o, names) <==> forall n :: n in names ==> ZeroOr(o, n)
  {
    hide OptionalInt, Missing, Has;
    forall n | n in names ensures OptionalInt(o, n) == Some(None) || OptionalInt(o, n) == Some(Some(0)) <==> ZeroOr(o, n) {
      Ints(o, n, 0);
      CountMeans(o, n, 0);
    }
  }

  lemma DetailsExactly(o: Fields, k: Key, names: set<Key>)
    ensures BridgeCounts.OutputDetails(o, k, names) <==> ZeroDetails(o, k, names)
  {
    hide ZeroCounts, Only, Members, ZeroOr;
    Rest(o, k, names);
    if k in o && o[k].Obj? {
      Rest(o[k].fields, k, names);
      ZeroExactly(o[k].fields, names);
    }
  }

  lemma CachedExactly(o: Fields, k: Key, responses: bool, u: U.Usage)
    ensures BridgeCounts.InputDetails(o, k, responses) == Some((u.read, u.write)) <==>
              CachedSays(o, k, if responses then {} else {AudioTokens, ImageTokens, TextTokens}, u)
  {
    hide ZeroCounts, Only, Members, ZeroOr, IntOrZero, CountOr;
    Rest(o, k, {});
    if k in o && o[k].Obj? { CachedInsideExactly(o[k].fields, responses, u); }
  }

  ghost predicate CachedInside(d: Fields, responses: bool, u: U.Usage) {
    && Only(d, if responses then {CachedTokens, CacheWriteTokens} else {CachedTokens, CacheWriteTokens, AudioTokens, ImageTokens, TextTokens})
    && IntOrZero(d, CachedTokens) == Some(u.read) && IntOrZero(d, CacheWriteTokens) == Some(u.write)
    && (responses || ZeroCounts(d, {AudioTokens, ImageTokens, TextTokens}))
  }

  lemma CachedInsideExactly(d: Fields, responses: bool, u: U.Usage)
    ensures var others: set<Key> := if responses then {} else {AudioTokens, ImageTokens, TextTokens};
            CachedInside(d, responses, u) <==>
              && Members(d, {CachedTokens, CacheWriteTokens} + others)
              && CountOr(d, CachedTokens, u.read) && CountOr(d, CacheWriteTokens, u.write)
              && forall n :: n in others ==> ZeroOr(d, n)
  {
    hide ZeroCounts, Only, Members, ZeroOr, IntOrZero, CountOr;
    var others: set<Key> := if responses then {} else {AudioTokens, ImageTokens, TextTokens};
    assert {CachedTokens, CacheWriteTokens} + others ==
           (if responses then {CachedTokens, CacheWriteTokens} else {CachedTokens, CacheWriteTokens, AudioTokens, ImageTokens, TextTokens});
    Rest(d, Usage, {CachedTokens, CacheWriteTokens} + others);
    ZeroExactly(d, {AudioTokens, ImageTokens, TextTokens});
    Ints(d, CachedTokens, u.read);
    Ints(d, CacheWriteTokens, u.write);
  }

  lemma HitsExactly(o: Fields, u: U.Usage)
    requires 0 <= u.input <= U.MAX
    ensures BridgeCounts.CacheHits(o, u.input, u.read) <==> HitsSay(o, u)
  {
    hide OptionalInt, U.CheckedAdd, Missing, Count;
    Ints(o, PromptCacheHit, u.read);
    Ints(o, PromptCacheMiss, u.input - u.read);
    IntsRange(o, PromptCacheHit);
    IntsRange(o, PromptCacheMiss);
    var hit, miss := OptionalInt(o, PromptCacheHit), OptionalInt(o, PromptCacheMiss);
    if hit.Some? && miss.Some? && hit.value.Some? && miss.value.Some? {
      U.CheckedIsExact(hit.value.value, miss.value.value);
    }
  }

  lemma ResponsesUsageExactly(top: Fields, usage: Option<U.Usage>)
    ensures BridgeCounts.ParseOpenAI(top, true) == Some(usage) <==> UsageSays(Responses, top, usage)
  {
    hide BridgeCounts.Counts, BridgeCounts.InputDetails, BridgeCounts.OutputDetails, Only, Members, U.Valid, CachedSays, ZeroDetails, Count, TotalAgrees, Sensible;
    Rest(top, Usage, {});
    if Usage in top && top[Usage].Obj? {
      var o := top[Usage].fields;
      Rest(o, Usage, BridgeCounts.OpenAIKeys(true));
      DetailsExactly(o, OutputTokensDetails, {ReasoningTokens});
      if usage.Some? {
        var u := usage.value;
        CountsExactly(o, InputTokens, OutputTokens, TotalTokens, u);
        CachedExactly(o, InputTokensDetails, true, u);
        SensibleFits(u);
      }
    }
  }

  lemma SensibleFits(u: U.Usage)
    ensures Sensible(u) ==> U.Fits(u) && U.Valid(u) && u.input + u.output <= INT64_MAX
    ensures U.Fits(u) && U.Valid(u) ==> Sensible(u)
  {
    if U.Fits(u) { SensibleExactly(u); }
  }

  lemma ChatUsageExactly(top: Fields, usage: Option<U.Usage>)
    ensures BridgeCounts.ParseOpenAI(top, false) == Some(usage) <==> UsageSays(Chat, top, usage)
  {
    hide BridgeCounts.Counts, BridgeCounts.InputDetails, BridgeCounts.OutputDetails, BridgeCounts.CacheHits, Only, Members, U.Valid;
    hide CachedSays, ZeroDetails, Count, TotalAgrees, Sensible, HitsSay;
    Rest(top, Usage, {});
    if Usage in top && top[Usage].Obj? {
      var o := top[Usage].fields;
      Rest(o, Usage, BridgeCounts.OpenAIKeys(false));
      DetailsExactly(o, CompletionTokensDetails, {AcceptedPrediction, AudioTokens, ReasoningTokens, RejectedPrediction, TextTokens});
      if usage.Some? {
        var u := usage.value;
        CountsExactly(o, PromptTokens, CompletionTokens, TotalTokens, u);
        CountMeans(o, PromptTokens, u.input);
        CachedExactly(o, PromptTokensDetails, false, u);
        if 0 <= u.input <= U.MAX { HitsExactly(o, u); }
        SensibleFits(u);
      }
    }
  }

  lemma GeminiUsageExactly(top: Fields, usage: Option<U.Usage>)
    ensures BridgeCounts.ParseGemini(top) == Some(usage) <==> UsageSays(Generate, top, usage)
  {
    hide BridgeCounts.Counts, Only, Members, U.Valid, Count, TotalAgrees, Sensible, IntOrZero, CountOr;
    Rest(top, UsageMetadata, {});
    if UsageMetadata in top && top[UsageMetadata].Obj? {
      var o := top[UsageMetadata].fields;
      Rest(o, Usage, {PromptTokenCount, CandidatesTokenCount, TotalTokenCount, CachedContentTokenCount});
      if usage.Some? {
        var u := usage.value;
        CountsExactly(o, PromptTokenCount, CandidatesTokenCount, TotalTokenCount, u);
        Ints(o, CachedContentTokenCount, u.read);
        SensibleFits(u);
      }
    }
  }

  // ----- Anthropic Messages -----

  lemma MessagesBlockExactly(j: Json, b: Block)
    ensures BridgeMessages.ParseBlock(j) == Some(b) <==> MessagesBlock(j, b)
  {
    hide Only, Members, Meaningful, Nothing;
    if j.Obj? {
      var o := j.fields;
      Rest(o, Citations, {Type, Text, Citations});
      Rest(o, Caller, {Type, Id, Name, Input, Caller});
    }
  }

  lemma {:induction false} MessagesBlocksExactly(js: seq<Json>, bs: seq<Block>)
    ensures BridgeMessages.ParseBlocks(js) == Some(bs) <==> |js| == |bs| && forall i :: 0 <= i < |bs| ==> MessagesBlock(js[i], bs[i])
    decreases |js|
  {
    hide BridgeMessages.ParseBlock, MessagesBlock;
    if js != [] {
      var n := |js| - 1;
      if |bs| == |js| {
        MessagesBlocksExactly(js[..n], bs[..n]);
        MessagesBlockExactly(js[n], bs[n]);
        assert bs == bs[..n] + [bs[n]];
        assert forall i :: 0 <= i < n ==> js[..n][i] == js[i] && bs[..n][i] == bs[i];
      } else {
        MessagesLength(js);
      }
    }
  }

  lemma {:induction false} MessagesLength(js: seq<Json>)
    ensures var r := BridgeMessages.ParseBlocks(js); r.Some? ==> |r.value| == |js|
    decreases |js|
  {
    hide BridgeMessages.ParseBlock;
    if js != [] { MessagesLength(js[..|js| - 1]); }
  }

  lemma MessagesParts(j: Json, c: Completion)
    ensures BridgeMessages.Parse(j) == Some(c) <==>
              && j.Obj?
              && var o := j.fields;
                 && Only(o, {Id, Type, Role, Model, Content, StopReason, StopSequenceKey, Usage})
                 && (OptionalString(o, Type) == Some(None) || OptionalString(o, Type) == Some(Some(MessageType)))
                 && StringOrEmpty(o, Id) == Some(c.id) && StringOrEmpty(o, Model) == Some(c.model) && c.created == 0
                 && RequiredString(o, Role) == Some(Assistant) && MessagesEnds(o, c.finish)
                 && RequiredArray(o, Content).Some? && BridgeMessages.ParseBlocks(RequiredArray(o, Content).value) == Some(c.blocks)
                 && BridgeCounts.ParseAnthropic(o) == Some(c.usage) && Valid(c)
  {
    hide Only, OptionalString, StringOrEmpty, RequiredString, Meaningful, RequiredArray, BridgeMessages.ParseBlocks, BridgeCounts.ParseAnthropic, Valid;
    hide BridgeMessages.ParseFinish;
    if j.Obj? {
      var o := j.fields;
      assert OptionalString(o, Type).Some? && (OptionalString(o, Type).value.None? || OptionalString(o, Type).value.value.MessageType?) <==>
             OptionalString(o, Type) == Some(None) || OptionalString(o, Type) == Some(Some(MessageType));
      assert RequiredString(o, Role).Some? && RequiredString(o, Role).value.Assistant? <==> RequiredString(o, Role) == Some(Assistant);
    }
  }

  ghost predicate MessagesEnds(o: Fields, f: Finish) {
    && RequiredString(o, StopReason).Some? && BridgeMessages.ParseFinish(RequiredString(o, StopReason).value) == Some(f)
    && if RequiredString(o, StopReason).value.StopSequence? then RequiredString(o, StopSequenceKey).Some? else !Meaningful(o, StopSequenceKey)
  }

  lemma MessagesFinishExactly(o: Fields, f: Finish)
    ensures MessagesEnds(o, f) <==> MessagesFinish(o, f)
  {
    hide Meaningful, Nothing;
    Rest(o, StopSequenceKey, {});
  }

  /** An Anthropic body is read as a completion exactly when it says that completion. */
  lemma MessagesExactly(j: Json, c: Completion)
    ensures BridgeMessages.Parse(j) == Some(c) <==> MessagesShape(j, c) && Settled(c)
  {
    hide Only, Members, OptionalString, StringOrEmpty, RequiredString, Has, Missing, TextOr, MessagesEnds, MessagesFinish;
    hide BridgeMessages.Parse, BridgeMessages.ParseBlocks, BridgeCounts.ParseAnthropic, UsageSays, Valid, MessagesBlock, Settled;
    MessagesParts(j, c);
    if j.Obj? {
      var o := j.fields;
      Rest(o, Usage, {Id, Type, Role, Model, Content, StopReason, StopSequenceKey, Usage});
      Strings(o, Type, MessageType);
      Strings(o, Role, Assistant);
      Strings(o, Id, c.id);
      Strings(o, Model, c.model);
      MessagesFinishExactly(o, c.finish);
      AnthropicExactly(o, c.usage);
      if Content in o && o[Content].Arr? { MessagesBlocksExactly(o[Content].items, c.blocks); }
      if UsageSays(Messages, o, c.usage) {
        UsageFits(Messages, o, c.usage);
        ValidExactly(c);
      }
    }
  }

  lemma UsageFits(p: Contract, o: Fields, usage: Option<U.Usage>)
    requires UsageSays(p, o, usage)
    ensures usage.Some? ==> U.Fits(usage.value) && Sensible(usage.value)
  {
    hide CountsSay;
    if usage.Some? { SensibleFits(usage.value); }
  }

  // ----- OpenAI Chat Completions -----

  lemma ChatCallExactly(codec: Codec, j: Json, call: Call)
    ensures BridgeChat.ParseCall(codec, j) == Some(call) <==> ChatCall(codec, j, ToolBlock(call))
  {
    hide Only, Members, ArgumentsSay;
    if j.Obj? {
      var o := j.fields;
      Rest(o, Usage, {Id, Type, Function});
      if Function in o && o[Function].Obj? {
        var fn := o[Function].fields;
        Rest(fn, Usage, {Name, Arguments});
        ArgumentsExactly(codec, fn, call.args);
      }
    }
  }

  lemma {:induction false} ChatLength(codec: Codec, js: seq<Json>)
    ensures var r := BridgeChat.ParseCalls(codec, js); r.Some? ==> |r.value| == |js|
    decreases |js|
  {
    hide BridgeChat.ParseCall;
    if js != [] { ChatLength(codec, js[..|js| - 1]); }
  }

  lemma {:induction false} ChatCallsExactly(codec: Codec, js: seq<Json>, bs: seq<Block>)
    ensures BridgeChat.ParseCalls(codec, js) == Some(bs) <==> |js| == |bs| && forall i :: 0 <= i < |bs| ==> ChatCall(codec, js[i], bs[i])
    decreases |js|
  {
    hide BridgeChat.ParseCall, ChatCall;
    if js != [] {
      var n := |js| - 1;
      if |bs| == |js| {
        ChatCallsExactly(codec, js[..n], bs[..n]);
        if bs[n].ToolBlock? { ChatCallExactly(codec, js[n], bs[n].call); } else { ChatCallIsTool(codec, js[n], bs[n]); }
        assert bs == bs[..n] + [bs[n]];
        assert forall i :: 0 <= i < n ==> js[..n][i] == js[i] && bs[..n][i] == bs[i];
      } else {
        ChatLength(codec, js);
      }
    }
  }

  lemma ChatCallIsTool(codec: Codec, j: Json, b: Block)
    ensures ChatCall(codec, j, b) ==> b.ToolBlock?
  {
  }

  /** The text block the content makes, if it makes one. */
  function TextOf(o: Fields): seq<Block>
    requires OptionalString(o, Content).Some?
  {
    var text := OptionalString(o, Content).value;
    if text.None? then [] else [TextBlock(text.value, Empty, Empty)]
  }

  lemma ChatTextExactly(o: Fields, text: seq<Block>)
    ensures OptionalString(o, Content).Some? && text == TextOf(o) <==> ChatText(o, text)
  {
    if Content in o && o[Content].Str? {
      assert Has(o, Content, Str(o[Content].word));
    }
  }

  function CallsOf(o: Fields): Option<seq<Json>> {
    if ToolCalls in o then RequiredArray(o, ToolCalls) else Some([])
  }

  lemma ChatMessageParts(codec: Codec, o: Fields, bs: seq<Block>)
    ensures BridgeChat.ParseMessage(codec, o) == Some(bs) <==>
              && Only(o, {Role, Content, ToolCalls, Refusal, Annotations, Audio, FunctionCall})
              && RequiredString(o, Role) == Some(Assistant)
              && !Meaningful(o, Refusal) && !Meaningful(o, Annotations) && !Meaningful(o, Audio) && !Meaningful(o, FunctionCall)
              && OptionalString(o, Content).Some? && CallsOf(o).Some?
              && BridgeChat.ParseCalls(codec, CallsOf(o).value).Some?
              && bs == TextOf(o) + BridgeChat.ParseCalls(codec, CallsOf(o).value).value
  {
    hide Only, OptionalString, RequiredString, Meaningful, RequiredArray, BridgeChat.ParseCalls;
    assert RequiredString(o, Role).Some? && RequiredString(o, Role).value.Assistant? <==> RequiredString(o, Role) == Some(Assistant);
  }

  lemma ChatMessageExactly(codec: Codec, o: Fields, bs: seq<Block>)
    ensures BridgeChat.ParseMessage(codec, o) == Some(bs) <==> ChatMessage(codec, o, bs)
  {
    hide Only, Members, Meaningful, Nothing, BridgeChat.ParseCalls, BridgeChat.ParseMessage, ChatCall, ChatText, OptionalString, TextOf, RequiredString, Has;
    var names := {Role, Content, ToolCalls, Refusal, Annotations, Audio, FunctionCall};
    ChatMessageParts(codec, o, bs);
    Rest(o, Refusal, names);
    Rest(o, Annotations, names);
    Rest(o, Audio, names);
    Rest(o, FunctionCall, names);
    Strings(o, Role, Assistant);
    if BridgeChat.ParseMessage(codec, o) == Some(bs) {
      var text, calls := TextOf(o), BridgeChat.ParseCalls(codec, CallsOf(o).value).value;
      ChatTextExactly(o, text);
      ChatCallsExactly(codec, CallsOf(o).value, calls);
      var n := |text|;
      assert bs[..n] == text && bs[n..] == calls;
      assert ChatText(o, bs[..n]);
      assert forall i :: 0 <= i < |bs| - n ==> bs[n + i] == calls[i];
    }
    if ChatMessage(codec, o, bs) {
      var n: nat :| n <= |bs| && ChatText(o, bs[..n])
        && if ToolCalls in o then
             && o[ToolCalls].Arr? && |o[ToolCalls].items| == |bs| - n
             && forall i :: 0 <= i < |bs| - n ==> ChatCall(codec, o[ToolCalls].items[i], bs[n + i])
           else n == |bs|;
      ChatTextExactly(o, bs[..n]);
      var calls := bs[n..];
      assert forall i :: 0 <= i < |calls| ==> calls[i] == bs[n + i];
      ChatCallsExactly(codec, CallsOf(o).value, calls);
      assert bs == bs[..n] + calls;
    }
  }

  lemma ChatFinishExactly(o: Fields, f: Finish)
    ensures RequiredString(o, FinishReason).Some? && BridgeChat.ParseFinish(RequiredString(o, FinishReason).value) == Some(f) <==> ChatFinish(o, f)
  {
  }

  lemma ChatChoiceParts(codec: Codec, j: Json, f: Finish, bs: seq<Block>)
    ensures BridgeChat.ParseChoice(codec, j) == Some((f, bs)) <==>
              && j.Obj?
              && var o := j.fields;
                 && Only(o, {Index, Message, FinishReason, Logprobs}) && IntOrZero(o, Index) == Some(0) && !Meaningful(o, Logprobs)
                 && RequiredString(o, FinishReason).Some? && BridgeChat.ParseFinish(RequiredString(o, FinishReason).value) == Some(f)
                 && RequiredObject(o, Message).Some? && BridgeChat.ParseMessage(codec, RequiredObject(o, Message).value) == Some(bs)
  {
    hide Only, RequiredString, Meaningful, RequiredObject, IntOrZero, BridgeChat.ParseMessage, BridgeChat.ParseFinish;
  }

  lemma ChatChoiceExactly(codec: Codec, j: Json, c: Completion)
    ensures BridgeChat.ParseChoice(codec, j) == Some((c.finish, c.blocks)) <==> ChatChoice(codec, j, c)
  {
    hide Only, Members, Meaningful, Nothing, RequiredString, IntOrZero, ZeroOr, BridgeChat.ParseChoice, BridgeChat.ParseMessage, BridgeChat.ParseFinish;
    hide ChatFinish, ChatMessage;
    ChatChoiceParts(codec, j, c.finish, c.blocks);
    if j.Obj? {
      var o := j.fields;
      Rest(o, Logprobs, {Index, Message, FinishReason, Logprobs});
      ZeroIndex(o);
      ChatFinishExactly(o, c.finish);
      if Message in o && o[Message].Obj? { ChatMessageExactly(codec, o[Message].fields, c.blocks); }
    }
  }

  lemma ZeroIndex(o: Fields)
    ensures IntOrZero(o, Index) == Some(0) <==> ZeroOr(o, Index)
  {
  }

  lemma ChatParts(codec: Codec, j: Json, c: Completion)
    ensures BridgeChat.Parse(codec, j) == Some(c) <==>
              && j.Obj?
              && var o := j.fields;
                 && Only(o, {Id, Object, Created, Model, Choices, Usage, SystemFingerprint, ServiceTier})
                 && (OptionalString(o, Object) == Some(None) || OptionalString(o, Object) == Some(Some(ChatCompletion)))
                 && StringOrEmpty(o, Id) == Some(c.id) && StringOrEmpty(o, Model) == Some(c.model) && IntOrZero(o, Created) == Some(c.created)
                 && RequiredArray(o, Choices).Some? && |RequiredArray(o, Choices).value| == 1
                 && BridgeChat.ParseChoice(codec, RequiredArray(o, Choices).value[0]) == Some((c.finish, c.blocks))
                 && BridgeCounts.ParseOpenAI(o, false) == Some(c.usage) && !(c.finish.Stopped? && HasTools(c.blocks)) && Valid(c)
  {
    hide Only, OptionalString, StringOrEmpty, IntOrZero, RequiredArray, BridgeChat.ParseChoice, BridgeCounts.ParseOpenAI, Valid, HasTools;
    if j.Obj? {
      var kind := OptionalString(j.fields, Object);
      assert kind.Some? && (kind.value.None? || kind.value.value.ChatCompletion?) <==> kind == Some(None) || kind == Some(Some(ChatCompletion));
    }
  }

  lemma ChatShapeExactly(codec: Codec, j: Json, c: Completion)
    ensures ChatShape(codec, j, c) <==>
              && j.Obj?
              && var o := j.fields;
                 && Only(o, {Id, Object, Created, Model, Choices, Usage, SystemFingerprint, ServiceTier})
                 && (OptionalString(o, Object) == Some(None) || OptionalString(o, Object) == Some(Some(ChatCompletion)))
                 && StringOrEmpty(o, Id) == Some(c.id) && StringOrEmpty(o, Model) == Some(c.model) && IntOrZero(o, Created) == Some(c.created)
                 && RequiredArray(o, Choices).Some? && |RequiredArray(o, Choices).value| == 1
                 && BridgeChat.ParseChoice(codec, RequiredArray(o, Choices).value[0]) == Some((c.finish, c.blocks))
                 && BridgeCounts.ParseOpenAI(o, false) == Some(c.usage)
  {
    hide Only, Members, OptionalString, StringOrEmpty, IntOrZero, BridgeChat.ParseChoice, BridgeCounts.ParseOpenAI;
    hide Has, Missing, TextOr, CountOr, ChatChoice, UsageSays;
    if j.Obj? {
      var o := j.fields;
      Rest(o, Usage, {Id, Object, Created, Model, Choices, Usage, SystemFingerprint, ServiceTier});
      Strings(o, Object, ChatCompletion);
      Strings(o, Id, c.id);
      Strings(o, Model, c.model);
      Ints(o, Created, c.created);
      ChatUsageExactly(o, c.usage);
      if Choices in o && o[Choices].Arr? && |o[Choices].items| == 1 { ChatChoiceExactly(codec, o[Choices].items[0], c); }
    }
  }

  /** A Chat Completions body is read as a completion exactly when it says that completion and does not call tools under a stop. */
  lemma ChatExactly(codec: Codec, j: Json, c: Completion)
    ensures BridgeChat.Parse(codec, j) == Some(c) <==>
              ChatShape(codec, j, c) && Settled(c) && !(c.finish.Stopped? && CallsTool(c.blocks))
  {
    hide BridgeChat.Parse, ChatShape, Valid, Settled, HasTools, CallsTool, UsageSays;
    ChatParts(codec, j, c);
    ChatShapeExactly(codec, j, c);
    ToolsMean(c.blocks);
    if ChatShape(codec, j, c) {
      ChatShapeUsage(codec, j, c);
      UsageFits(Chat, j.fields, c.usage);
      ValidExactly(c);
    }
  }

  lemma ChatShapeUsage(codec: Codec, j: Json, c: Completion)
    requires ChatShape(codec, j, c)
    ensures j.Obj? && UsageSays(Chat, j.fields, c.usage)
  {
    hide UsageSays, ChatChoice;
  }

  // ----- Gemini -----

  lemma GeminiPartExactly(j: Json, b: Block)
    ensures BridgeGemini.ParsePart(j) == Some(b) <==> GeminiPart(j, b)
  {
    hide Only, Members, Meaningful, Nothing, StringOrEmpty, TextOr;
    if j.Obj? {
      var o := j.fields;
      Rest(o, ThoughtSignature, {Text, Thought, ThoughtSignature, PartMetadata});
      Rest(o, PartMetadata, {FunctionCallCamel, Thought, ThoughtSignature, PartMetadata});
      MembersOut(o, {Text, Thought, ThoughtSignature, PartMetadata}, FunctionCallCamel);
      MembersOut(o, {FunctionCallCamel, Thought, ThoughtSignature, PartMetadata}, Text);
      if FunctionCallCamel in o && o[FunctionCallCamel].Obj? {
        var fc := o[FunctionCallCamel].fields;
        Rest(fc, Usage, {Id, Name, Args});
        if b.ToolBlock? { Strings(fc, Id, b.call.callId); }
      }
    }
  }

  lemma MembersOut(o: Fields, names: set<Key>, k: Key)
    requires k !in names
    ensures Members(o, names) ==> k !in o
  {
  }

  lemma {:induction false} GeminiLength(js: seq<Json>)
    ensures var r := BridgeGemini.ParseParts(js); r.Some? ==> |r.value| == |js|
    decreases |js|
  {
    hide BridgeGemini.ParsePart;
    if js != [] { GeminiLength(js[..|js| - 1]); }
  }

  lemma {:induction false} GeminiPartsExactly(js: seq<Json>, bs: seq<Block>)
    ensures BridgeGemini.ParseParts(js) == Some(bs) <==> |js| == |bs| && forall i :: 0 <= i < |bs| ==> GeminiPart(js[i], bs[i])
    decreases |js|
  {
    hide BridgeGemini.ParsePart, GeminiPart;
    if js != [] {
      var n := |js| - 1;
      if |bs| == |js| {
        GeminiPartsExactly(js[..n], bs[..n]);
        GeminiPartExactly(js[n], bs[n]);
        assert bs == bs[..n] + [bs[n]];
        assert forall i :: 0 <= i < n ==> js[..n][i] == js[i] && bs[..n][i] == bs[i];
      } else {
        GeminiLength(js);
      }
    }
  }

  lemma GeminiCandidateParts(j: Json, f: Finish, bs: seq<Block>)
    ensures BridgeGemini.ParseCandidate(j) == Some((f, bs)) <==>
              && j.Obj?
              && var o := j.fields;
                 && Only(o, {Content, FinishReasonCamel, Index}) && IntOrZero(o, Index) == Some(0)
                 && RequiredString(o, FinishReasonCamel).Some? && BridgeGemini.ParseFinish(RequiredString(o, FinishReasonCamel).value) == Some(f)
                 && RequiredObject(o, Content).Some?
                 && var d := RequiredObject(o, Content).value;
                    && Only(d, {Role, Parts}) && RequiredString(d, Role) == Some(ModelRole)
                    && RequiredArray(d, Parts).Some? && BridgeGemini.ParseParts(RequiredArray(d, Parts).value) == Some(bs)
  {
    hide Only, RequiredString, RequiredObject, RequiredArray, IntOrZero, BridgeGemini.ParseParts, BridgeGemini.ParseFinish;
    if j.Obj? && RequiredObject(j.fields, Content).Some? {
      var role := RequiredString(RequiredObject(j.fields, Content).value, Role);
      assert role.Some? && role.value.ModelRole? <==> role == Some(ModelRole);
    }
  }

  lemma GeminiFinishExactly(o: Fields, bs: seq<Block>, f: Finish, raw: Finish)
    ensures RequiredString(o, FinishReasonCamel).Some? && BridgeGemini.ParseFinish(RequiredString(o, FinishReasonCamel).value) == Some(raw)
            && f == (if raw.Stopped? && HasTools(bs) then ToolCalling else raw)
            ==> GeminiFinish(o, bs, f)
    ensures GeminiFinish(o, bs, f) ==>
              RequiredString(o, FinishReasonCamel).Some?
              && BridgeGemini.ParseFinish(RequiredString(o, FinishReasonCamel).value) == Some(if f.Cut? then Cut else Stopped)
              && f == (if !f.Cut? && HasTools(bs) then ToolCalling else if f.Cut? then Cut else Stopped)
  {
    hide HasTools, CallsTool;
    ToolsMean(bs);
  }

  /** The candidate as the reader sees it, before a stop with calls becomes a tool call. */
  ghost predicate GeminiReads(j: Json, c: Completion) {
    && BridgeGemini.ParseCandidate(j).Some?
    && var r := BridgeGemini.ParseCandidate(j).value;
       r.1 == c.blocks && c.finish == (if r.0.Stopped? && HasTools(r.1) then ToolCalling else r.0)
  }

  lemma GeminiCandidateExactly(j: Json, c: Completion)
    ensures GeminiReads(j, c) <==> GeminiCandidate(j, c)
  {
    hide Only, Members, RequiredString, IntOrZero, ZeroOr, Has, BridgeGemini.ParseCandidate, BridgeGemini.ParseParts, BridgeGemini.ParseFinish, GeminiFinish, GeminiPart, HasTools;
    var raw := if BridgeGemini.ParseCandidate(j).Some? then BridgeGemini.ParseCandidate(j).value.0 else Cut;
    GeminiCandidateParts(j, raw, c.blocks);
    GeminiCandidateParts(j, if c.finish.Cut? then Cut else Stopped, c.blocks);
    if j.Obj? {
      var o := j.fields;
      Rest(o, Usage, {Content, FinishReasonCamel, Index});
      ZeroIndex(o);
      GeminiFinishExactly(o, c.blocks, c.finish, raw);
      if Content in o && o[Content].Obj? {
        var d := o[Content].fields;
        Rest(d, Usage, {Role, Parts});
        Strings(d, Role, ModelRole);
        if Parts in d && d[Parts].Arr? { GeminiPartsExactly(d[Parts].items, c.blocks); }
      }
    }
  }

  lemma GeminiInnerParts(o: Fields, c: Completion)
    ensures BridgeGemini.ParseInner(o) == Some(c) <==>
              && Only(o, {Candidates, UsageMetadata, ModelVersion, ResponseId})
              && StringOrEmpty(o, ModelVersion) == Some(c.model) && StringOrEmpty(o, ResponseId) == Some(c.id) && c.created == 0
              && RequiredArray(o, Candidates).Some? && |RequiredArray(o, Candidates).value| == 1
              && GeminiReads(RequiredArray(o, Candidates).value[0], c)
              && BridgeCounts.ParseGemini(o) == Some(c.usage) && Valid(c)
  {
    hide Only, StringOrEmpty, RequiredArray, BridgeGemini.ParseCandidate, BridgeCounts.ParseGemini, Valid, HasTools;
  }

  lemma GeminiInnerExactly(o: Fields, c: Completion)
    ensures BridgeGemini.ParseInner(o) == Some(c) <==> GeminiInner(o, c) && Settled(c)
  {
    hide Only, Members, StringOrEmpty, TextOr, BridgeGemini.ParseInner, GeminiReads, GeminiCandidate, BridgeCounts.ParseGemini, UsageSays, Valid, Settled;
    GeminiInnerParts(o, c);
    Rest(o, Usage, {Candidates, UsageMetadata, ModelVersion, ResponseId});
    Strings(o, ModelVersion, c.model);
    Strings(o, ResponseId, c.id);
    GeminiUsageExactly(o, c.usage);
    if Candidates in o && o[Candidates].Arr? && |o[Candidates].items| == 1 { GeminiCandidateExactly(o[Candidates].items[0], c); }
    if UsageSays(Generate, o, c.usage) {
      UsageFits(Generate, o, c.usage);
      ValidExactly(c);
    }
  }

  /** A Gemini body, wrapped or not, is read as a completion exactly when it says that completion. */
  lemma GeminiExactly(j: Json, wrapped: bool, c: Completion)
    ensures BridgeGemini.Parse(j, wrapped) == Some(c) <==> GeminiShape(j, wrapped, c) && Settled(c)
  {
    hide BridgeGemini.ParseInner, GeminiInner, Settled, Only, Members;
    if j.Obj? {
      var o := j.fields;
      Rest(o, Usage, {Response});
      GeminiInnerExactly(o, c);
      InnerMembers(o, c);
      if Response in o && o[Response].Obj? { GeminiInnerExactly(o[Response].fields, c); }
    }
  }

  lemma InnerMembers(o: Fields, c: Completion)
    ensures GeminiInner(o, c) ==> Response !in o
  {
    hide GeminiCandidate, UsageSays;
  }

  // ----- OpenAI Responses -----

  lemma ItemTextExactly(j: Json, w: Word)
    ensures BridgeItems.ParsePart(j) == Some(w) <==> ItemText(j, w)
  {
    hide Only, Members, Meaningful, Nothing;
    if j.Obj? {
      Rest(j.fields, Annotations, {Type, Text, Annotations, Logprobs});
      Rest(j.fields, Logprobs, {Type, Text, Annotations, Logprobs});
    }
  }

  predicate TextAt(j: Json, item: Word, status: Word, b: Block) {
    b.TextBlock? && b.item == item && b.status == status && ItemText(j, b.text)
  }

  lemma TextAtExactly(j: Json, item: Word, status: Word, b: Block)
    ensures TextAt(j, item, status, b) <==> b.TextBlock? && b.item == item && b.status == status && BridgeItems.ParsePart(j) == Some(b.text)
  {
    hide BridgeItems.ParsePart, ItemText;
    if b.TextBlock? { ItemTextExactly(j, b.text); }
  }

  lemma TextsStep(js: seq<Json>, item: Word, status: Word, bs: seq<Block>)
    requires js != [] && bs != []
    ensures BridgeItems.ParseParts(js, item, status) == Some(bs) <==>
              TextAt(js[0], item, status, bs[0]) && BridgeItems.ParseParts(js[1..], item, status) == Some(bs[1..])
  {
    hide BridgeItems.ParsePart, TextAt;
    TextAtExactly(js[0], item, status, bs[0]);
    assert bs == [bs[0]] + bs[1..];
    if BridgeItems.ParseParts(js, item, status) == Some(bs) {
      var text, rest := BridgeItems.ParsePart(js[0]).value, BridgeItems.ParseParts(js[1..], item, status).value;
      assert bs == [TextBlock(text, item, status)] + rest;
      assert bs[0] == TextBlock(text, item, status) && bs[1..] == rest;
    }
  }

  lemma NoTexts(js: seq<Json>, item: Word, status: Word)
    ensures BridgeItems.ParseParts(js, item, status) == Some([]) <==> js == []
  {
    hide BridgeItems.ParsePart;
  }

  lemma {:induction false} ItemTextsExactly(js: seq<Json>, item: Word, status: Word, bs: seq<Block>)
    ensures BridgeItems.ParseParts(js, item, status) == Some(bs) <==>
              |js| == |bs| && forall i :: 0 <= i < |bs| ==> TextAt(js[i], item, status, bs[i])
    decreases |js|
  {
    hide TextAt;
    if bs == [] {
      NoTexts(js, item, status);
    } else if js != [] {
      hide BridgeItems.ParseParts;
      ItemTextsExactly(js[1..], item, status, bs[1..]);
      TextsStep(js, item, status, bs);
      assert forall i :: 0 < i < |bs| ==> bs[1..][i - 1] == bs[i];
      assert forall i :: 0 < i < |js| ==> js[1..][i - 1] == js[i];
      if |js| == |bs| && forall i :: 0 <= i < |bs| ==> TextAt(js[i], item, status, bs[i]) {
        assert forall i :: 0 <= i < |bs[1..]| ==> bs[1..][i] == bs[i + 1] && js[1..][i] == js[i + 1];
      }
    }
  }

  lemma StatusExactly(o: Fields, response: Word, status: Word)
    ensures BridgeItems.ParseStatus(o, response) == Some(status) <==> ItemStatusSays(o, response, status)
  {
  }

  lemma MessageItemParts(o: Fields, response: Word, bs: seq<Block>)
    ensures BridgeItems.ParseMessage(o, response) == Some(bs) <==>
              && Only(o, {Id, Type, Status, Role, Content}) && StringOrEmpty(o, Id).Some? && RequiredString(o, Role) == Some(Assistant)
              && BridgeItems.ParseStatus(o, response).Some? && RequiredArray(o, Content).Some?
              && BridgeItems.ParseParts(RequiredArray(o, Content).value, StringOrEmpty(o, Id).value, BridgeItems.ParseStatus(o, response).value) == Some(bs)
  {
    hide Only, StringOrEmpty, RequiredString, RequiredArray, BridgeItems.ParseStatus, BridgeItems.ParseParts;
    assert RequiredString(o, Role).Some? && RequiredString(o, Role).value.Assistant? <==> RequiredString(o, Role) == Some(Assistant);
  }

  lemma MessageItemExactly(o: Fields, response: Word, bs: seq<Block>)
    ensures BridgeItems.ParseMessage(o, response) == Some(bs) <==> MessageItemSays(o, response, bs)
  {
    hide Only, Members, StringOrEmpty, TextOr, RequiredString, Has, BridgeItems.ParseStatus, ItemStatusSays, BridgeItems.ParseParts, BridgeItems.ParseMessage, ItemText;
    MessageItemParts(o, response, bs);
    Rest(o, Usage, {Id, Type, Status, Role, Content});
    Strings(o, Role, Assistant);
    forall w ensures StringOrEmpty(o, Id) == Some(w) <==> TextOr(o, Id, w) { Strings(o, Id, w); }
    forall w ensures BridgeItems.ParseStatus(o, response) == Some(w) <==> ItemStatusSays(o, response, w) { StatusExactly(o, response, w); }
    if StringOrEmpty(o, Id).Some? { assert TextOr(o, Id, StringOrEmpty(o, Id).value); }
    if BridgeItems.ParseStatus(o, response).Some? { assert ItemStatusSays(o, response, BridgeItems.ParseStatus(o, response).value); }
    if StringOrEmpty(o, Id).Some? && BridgeItems.ParseStatus(o, response).Some? && Content in o && o[Content].Arr? {
      ItemTextsExactly(o[Content].items, StringOrEmpty(o, Id).value, BridgeItems.ParseStatus(o, response).value, bs);
    }
  }

  lemma CallItemParts(codec: Codec, o: Fields, response: Word, call: Call)
    ensures BridgeItems.ParseCall(codec, o, response) == Some([ToolBlock(call)]) <==>
              && Only(o, {Id, Type, Status, CallId, Name, Arguments}) && BridgeItems.ParseStatus(o, response) == Some(call.status)
              && RequiredString(o, Id) == Some(call.item) && RequiredString(o, CallId) == Some(call.callId)
              && !call.item.Empty? && !call.callId.Empty? && RequiredString(o, Name) == Some(call.name)
              && RequiredString(o, Arguments).Some? && codec.decode(RequiredString(o, Arguments).value) == Some(call.args)
  {
    hide Only, BridgeItems.ParseStatus, RequiredString;
    var one := [ToolBlock(call)];
    assert one[0] == ToolBlock(call);
  }

  lemma CallItemIsOne(codec: Codec, o: Fields, response: Word)
    ensures var r := BridgeItems.ParseCall(codec, o, response); r.Some? ==> |r.value| == 1 && r.value[0].ToolBlock?
  {
    hide Only, BridgeItems.ParseStatus, RequiredString;
  }

  lemma CallItemMeans(codec: Codec, o: Fields, response: Word, call: Call)
    ensures BridgeItems.ParseCall(codec, o, response) == Some([ToolBlock(call)]) <==> CallItemSays(codec, o, response, [ToolBlock(call)])
  {
    hide Only, Members, BridgeItems.ParseStatus, ItemStatusSays, BridgeItems.ParseCall, RequiredString, ArgumentsSay, Has;
    CallItemParts(codec, o, response, call);
    Rest(o, Usage, {Id, Type, Status, CallId, Name, Arguments});
    StatusExactly(o, response, call.status);
    Strings(o, Id, call.item);
    Strings(o, CallId, call.callId);
    Strings(o, Name, call.name);
    ArgumentsExactly(codec, o, call.args);
  }

  lemma CallItemSaysOne(codec: Codec, o: Fields, response: Word, bs: seq<Block>)
    ensures CallItemSays(codec, o, response, bs) ==> |bs| == 1 && bs[0].ToolBlock?
  {
  }

  lemma CallItemExactly(codec: Codec, o: Fields, response: Word, bs: seq<Block>)
    ensures BridgeItems.ParseCall(codec, o, response) == Some(bs) <==> CallItemSays(codec, o, response, bs)
  {
    hide CallItemSays, BridgeItems.ParseCall;
    CallItemIsOne(codec, o, response);
    CallItemSaysOne(codec, o, response, bs);
    if |bs| == 1 && bs[0].ToolBlock? {
      assert bs == [ToolBlock(bs[0].call)];
      CallItemMeans(codec, o, response, bs[0].call);
    }
  }

  lemma ItemExactly(codec: Codec, j: Json, response: Word, bs: seq<Block>)
    ensures BridgeItems.ParseItem(codec, j, response) == Some(bs) <==> ItemSays(codec, j, response, bs)
  {
    hide BridgeItems.ParseMessage, BridgeItems.ParseCall, MessageItemSays, CallItemSays;
    if j.Obj? {
      MessageItemExactly(j.fields, response, bs);
      CallItemExactly(codec, j.fields, response, bs);
    }
  }

  /** The items are read one after the other. */
  lemma ItemsStep(codec: Codec, js: seq<Json>, response: Word, bs: seq<Block>, n: nat)
    requires js != [] && n <= |bs|
    requires BridgeItems.ParseItem(codec, js[0], response) == Some(bs[..n]) && BridgeItems.ParseItems(codec, js[1..], response) == Some(bs[n..])
    ensures BridgeItems.ParseItems(codec, js, response) == Some(bs)
  {
    hide BridgeItems.ParseItem;
    assert bs == bs[..n] + bs[n..];
  }

  lemma ItemsUnstep(codec: Codec, js: seq<Json>, response: Word, bs: seq<Block>) returns (n: nat)
    requires js != [] && BridgeItems.ParseItems(codec, js, response) == Some(bs)
    ensures n <= |bs| && BridgeItems.ParseItem(codec, js[0], response) == Some(bs[..n])
    ensures BridgeItems.ParseItems(codec, js[1..], response) == Some(bs[n..])
  {
    hide BridgeItems.ParseItem;
    var first, rest := BridgeItems.ParseItem(codec, js[0], response).value, BridgeItems.ParseItems(codec, js[1..], response).value;
    n := |first|;
    assert bs == first + rest;
    assert bs[..n] == first && bs[n..] == rest;
  }

  lemma {:induction false} ItemsRead(codec: Codec, js: seq<Json>, response: Word, bs: seq<Block>)
    requires BridgeItems.ParseItems(codec, js, response) == Some(bs)
    ensures ItemsSay(codec, js, response, bs)
    decreases |js|
  {
    if js != [] {
      hide BridgeItems.ParseItem, BridgeItems.ParseItems, ItemSays;
      var n := ItemsUnstep(codec, js, response, bs);
      ItemExactly(codec, js[0], response, bs[..n]);
      ItemsRead(codec, js[1..], response, bs[n..]);
    }
  }

  lemma {:induction false} ItemsReadBack(codec: Codec, js: seq<Json>, response: Word, bs: seq<Block>)
    requires ItemsSay(codec, js, response, bs)
    ensures BridgeItems.ParseItems(codec, js, response) == Some(bs)
    decreases |js|
  {
    if js != [] {
      hide BridgeItems.ParseItem, BridgeItems.ParseItems, ItemSays;
      var n: nat :| n <= |bs| && ItemSays(codec, js[0], response, bs[..n]) && ItemsSay(codec, js[1..], response, bs[n..]);
      ItemExactly(codec, js[0], response, bs[..n]);
      ItemsReadBack(codec, js[1..], response, bs[n..]);
      ItemsStep(codec, js, response, bs, n);
    }
  }

  lemma ItemsExactly(codec: Codec, js: seq<Json>, response: Word, bs: seq<Block>)
    ensures BridgeItems.ParseItems(codec, js, response) == Some(bs) <==> ItemsSay(codec, js, response, bs)
  {
    hide BridgeItems.ParseItems, ItemsSay;
    if BridgeItems.ParseItems(codec, js, response) == Some(bs) { ItemsRead(codec, js, response, bs); }
    if ItemsSay(codec, js, response, bs) { ItemsReadBack(codec, js, response, bs); }
  }

  /** The reader's finish, before a stop with calls becomes a tool call. */
  ghost predicate ResponsesEnds(o: Fields, status: Word, bs: seq<Block>, f: Finish) {
    && BridgeItems.ParseFinish(o, status).Some?
    && var raw := BridgeItems.ParseFinish(o, status).value; f == (if raw.Stopped? && HasTools(bs) then ToolCalling else raw)
  }

  lemma OnlyReason(d: Fields)
    ensures Only(d, {Reason}) && RequiredString(d, Reason) == Some(MaxOutputTokens) <==> d == map[Reason := Str(MaxOutputTokens)]
  {
    if Only(d, {Reason}) && RequiredString(d, Reason) == Some(MaxOutputTokens) {
      assert d.Keys == {Reason};
    }
  }

  lemma ResponsesFinishExactly(o: Fields, status: Word, bs: seq<Block>, f: Finish)
    requires Has(o, Status, Str(status))
    ensures ResponsesEnds(o, status, bs, f) <==> ResponsesFinish(o, bs, f)
  {
    hide Meaningful, Nothing, HasTools, CallsTool, Only, RequiredString;
    Rest(o, IncompleteDetails, {});
    ToolsMean(bs);
    if IncompleteDetails in o && o[IncompleteDetails].Obj? {
      OnlyReason(o[IncompleteDetails].fields);
    }
  }

  predicate Documented(o: Fields) {
    forall k :: k in o ==> k in {Id, Object, Model, Status, Error, IncompleteDetails, Moderation, Output, Usage} || BridgeItems.Observed(k)
  }

  lemma ResponsesParts(codec: Codec, j: Json, c: Completion)
    ensures BridgeItems.Parse(codec, j) == Some(c) <==>
              && j.Obj?
              && var o := j.fields;
                 && Documented(o)
                 && (OptionalString(o, Object) == Some(None) || OptionalString(o, Object) == Some(Some(ResponseObject)))
                 && StringOrEmpty(o, Id) == Some(c.id) && StringOrEmpty(o, Model) == Some(c.model) && IntOrZero(o, CreatedAt) == Some(c.created)
                 && RequiredString(o, Status).Some? && !Meaningful(o, Error) && !Meaningful(o, Moderation)
                 && ResponsesEnds(o, RequiredString(o, Status).value, c.blocks, c.finish)
                 && RequiredArray(o, Output).Some?
                 && BridgeItems.ParseItems(codec, RequiredArray(o, Output).value, RequiredString(o, Status).value) == Some(c.blocks)
                 && BridgeCounts.ParseOpenAI(o, true) == Some(c.usage) && Valid(c)
  {
    hide OptionalString, StringOrEmpty, IntOrZero, RequiredString, Meaningful, RequiredArray, BridgeItems.ParseItems, BridgeItems.ParseFinish;
    hide BridgeCounts.ParseOpenAI, Valid, HasTools, BridgeItems.Observed;
    if j.Obj? {
      var kind := OptionalString(j.fields, Object);
      assert kind.Some? && (kind.value.None? || kind.value.value.ResponseObject?) <==> kind == Some(None) || kind == Some(Some(ResponseObject));
    }
  }

  lemma EchoedMeans(k: Key)
    ensures BridgeItems.Observed(k) <==> Echoed(k)
  {
  }

  lemma DocumentedMeans(o: Fields)
    ensures Documented(o) <==>
              forall k :: k in o ==> k in {Id, Object, Model, Status, Error, IncompleteDetails, Moderation, Output, Usage} || Echoed(k)
  {
    hide BridgeItems.Observed, Echoed;
    forall k ensures BridgeItems.Observed(k) <==> Echoed(k) { EchoedMeans(k); }
  }

  /** A Responses body is read as a completion exactly when it says that completion. */
  lemma ResponsesExactly(codec: Codec, j: Json, c: Completion)
    ensures BridgeItems.Parse(codec, j) == Some(c) <==> ResponsesShape(codec, j, c) && Settled(c)
  {
    hide OptionalString, StringOrEmpty, IntOrZero, Meaningful, Nothing, Missing, TextOr, CountOr, BridgeItems.ParseItems, BridgeItems.Parse, BridgeItems.ParseFinish;
    hide BridgeCounts.ParseOpenAI, UsageSays, Valid, Settled, ResponsesEnds, ResponsesFinish, ItemsSay, Documented, Echoed;
    ResponsesParts(codec, j, c);
    if j.Obj? {
      var o := j.fields;
      DocumentedMeans(o);
      Rest(o, Error, {});
      Rest(o, Moderation, {});
      Strings(o, Object, ResponseObject);
      Strings(o, Id, c.id);
      Strings(o, Model, c.model);
      Ints(o, CreatedAt, c.created);
      ResponsesUsageExactly(o, c.usage);
      if Status in o && o[Status].Str? {
        ResponsesFinishExactly(o, o[Status].word, c.blocks, c.finish);
        if Output in o && o[Output].Arr? { ItemsExactly(codec, o[Output].items, o[Status].word, c.blocks); }
      }
      if UsageSays(Responses, o, c.usage) {
        UsageFits(Responses, o, c.usage);
        ValidExactly(c);
      }
    }
  }
}
