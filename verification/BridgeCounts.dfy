/**
 Usage members of the four response contracts, read and written
 (internal/bridge/response.go:1234-1426, 1492-1502, 1578-1588, 1609-1615, 1644-1650).
 */
module BridgeCounts {
  import opened Wrappers
  import opened BridgeJson
  import U = BridgeUsage

  // ----- OpenAI -----

  /** Cache reads and writes from the input details. */
  function InputDetails(o: Fields, k: Key, responses: bool): (r: Option<(int, int)>)
    ensures r.Some? ==> 0 <= r.value.0 <= U.MAX && 0 <= r.value.1 <= U.MAX
  {
    if Absent(o, k) then Some((0, 0))
    else
      var d :- AsObject(o[k]);
      var _ :- Need(Only(d, if responses then {CachedTokens, CacheWriteTokens}
                            else {CachedTokens, CacheWriteTokens, AudioTokens, ImageTokens, TextTokens}));
      var read :- IntOrZero(d, CachedTokens);
      var write :- IntOrZero(d, CacheWriteTokens);
      var _ :- Need(responses || ZeroCounts(d, {AudioTokens, ImageTokens, TextTokens}));
      Some((read, write))
  }

  /** Hit and miss counts come together, add up to the input and agree with the cache reads. */
  predicate CacheHits(o: Fields, input: int, read: int) {
    var hit, miss := OptionalInt(o, PromptCacheHit), OptionalInt(o, PromptCacheMiss);
    && hit.Some? && miss.Some? && hit.value.Some? == miss.value.Some?
    && (hit.value.Some? ==> U.CheckedAdd(hit.value.value, miss.value.value) == Some(input) && hit.value.value == read)
  }

  predicate OutputDetails(o: Fields, k: Key, names: set<Key>) {
    Absent(o, k) || (o[k].Obj? && Only(o[k].fields, names) && ZeroCounts(o[k].fields, names))
  }

  /** Input and output counts whose reported total, if any, agrees. */
  function Counts(o: Fields, inKey: Key, outKey: Key, totalKey: Key): (r: Option<(int, int)>)
    ensures r.Some? ==> 0 <= r.value.0 <= U.MAX && 0 <= r.value.1 <= U.MAX
  {
    var input :- RequiredInt(o, inKey);
    var output :- RequiredInt(o, outKey);
    var want :- U.CheckedAdd(input, output);
    var total :- OptionalInt(o, totalKey);
    var _ :- Need(total.None? || total.value == want);
    Some((input, output))
  }

  function OpenAIKeys(responses: bool): set<Key> {
    if responses then {InputTokens, OutputTokens, TotalTokens, InputTokensDetails, OutputTokensDetails}
    else {PromptTokens, CompletionTokens, TotalTokens, PromptTokensDetails, CompletionTokensDetails, PromptCacheHit, PromptCacheMiss}
  }

  function ParseOpenAI(top: Fields, responses: bool): (r: Option<Option<U.Usage>>)
    ensures r.Some? && r.value.Some? ==> U.Fits(r.value.value) && U.Valid(r.value.value)
  {
    if Absent(top, Usage) then Some(None)
    else
      var o :- AsObject(top[Usage]);
      var inKey, outKey, details :=
        if responses then InputTokens else PromptTokens,
        if responses then OutputTokens else CompletionTokens,
        if responses then InputTokensDetails else PromptTokensDetails;
      var _ :- Need(Only(o, OpenAIKeys(responses)));
      var counts :- Counts(o, inKey, outKey, TotalTokens);
      var cache :- InputDetails(o, details, responses);
      var _ :- Need(responses || CacheHits(o, counts.0, cache.0));
      var _ :- Need(if responses then OutputDetails(o, OutputTokensDetails, {ReasoningTokens})
                    else OutputDetails(o, CompletionTokensDetails,
                                       {AcceptedPrediction, AudioTokens, ReasoningTokens, RejectedPrediction, TextTokens}));
      var u := U.Usage(counts.0, counts.1, cache.0, cache.1);
      var _ :- Need(U.Valid(u));
      Some(Some(u))
  }

  function ChatUsage(u: U.Usage): Json {
    var counts := map[PromptTokens := Num(u.input), CompletionTokens := Num(u.output), TotalTokens := Num(u.input + u.output)];
    Obj(if u.read == 0 then counts else counts[PromptTokensDetails := Obj(map[CachedTokens := Num(u.read)])])
  }

  function ResponsesUsage(u: U.Usage): Json {
    Obj(map[InputTokens := Num(u.input), OutputTokens := Num(u.output), TotalTokens := Num(u.input + u.output),
            InputTokensDetails := Obj(map[CachedTokens := Num(u.read), CacheWriteTokens := Num(u.write)]),
            OutputTokensDetails := Obj(map[ReasoningTokens := Num(0)])])
  }

  // ----- Anthropic -----

  function ParseAnthropic(top: Fields): (r: Option<Option<U.Usage>>)
    ensures r.Some? && r.value.Some? ==> U.Fits(r.value.value) && U.Valid(r.value.value)
  {
    if Absent(top, Usage) then Some(None)
    else
      var o :- AsObject(top[Usage]);
      var _ :- Need(Only(o, {InputTokens, OutputTokens, CacheReadInput, CacheCreationInput}));
      var input :- RequiredInt(o, InputTokens);
      var output :- RequiredInt(o, OutputTokens);
      var read :- IntOrZero(o, CacheReadInput);
      var write :- IntOrZero(o, CacheCreationInput);
      var sum :- U.CheckedAdd(input, read);
      var whole :- U.CheckedAdd(sum, write);
      var u := U.Usage(whole, output, read, write);
      var _ :- Need(U.Valid(u));
      Some(Some(u))
  }

  function AnthropicUsage(u: U.Usage): Json {
    Obj(map[InputTokens := Num(U.Wrap(U.Wrap(u.input - u.read) - u.write)), OutputTokens := Num(u.output),
            CacheReadInput := Num(u.read), CacheCreationInput := Num(u.write)])
  }

  // ----- Gemini -----

  function ParseGemini(top: Fields): (r: Option<Option<U.Usage>>)
    ensures r.Some? && r.value.Some? ==> U.Fits(r.value.value) && U.Valid(r.value.value)
  {
    if Absent(top, UsageMetadata) then Some(None)
    else
      var o :- AsObject(top[UsageMetadata]);
      var _ :- Need(Only(o, {PromptTokenCount, CandidatesTokenCount, TotalTokenCount, CachedContentTokenCount}));
      var counts :- Counts(o, PromptTokenCount, CandidatesTokenCount, TotalTokenCount);
      var read :- IntOrZero(o, CachedContentTokenCount);
      var u := U.Usage(counts.0, counts.1, read, 0);
      var _ :- Need(U.Valid(u));
      Some(Some(u))
  }

  function GeminiUsage(u: U.Usage): Json {
    Obj(map[PromptTokenCount := Num(u.input), CandidatesTokenCount := Num(u.output),
            TotalTokenCount := Num(u.input + u.output), CachedContentTokenCount := Num(u.read)])
  }

  // ----- written, then read -----

  lemma Bounds(u: U.Usage)
    requires U.Fits(u) && U.Valid(u)
    ensures 0 <= u.input <= U.MAX && 0 <= u.output <= U.MAX && 0 <= u.read <= U.MAX && 0 <= u.write <= U.MAX
    ensures u.input + u.output <= U.MAX && u.read + u.write <= u.input
    ensures U.CheckedAdd(u.input, u.output) == Some(u.input + u.output)
  {
    U.ValidMeans(u);
    U.CheckedIsExact(u.input, u.output);
  }

  lemma ChatDetails(u: U.Usage)
    requires 0 <= u.read <= U.MAX
    ensures InputDetails(ChatUsage(u).fields, PromptTokensDetails, false) == Some((u.read, 0))
  {
  }

  lemma ChatCounts(u: U.Usage)
    requires 0 <= u.input <= U.MAX && 0 <= u.output <= U.MAX && u.input + u.output <= U.MAX
    ensures var o := ChatUsage(u).fields;
            && Only(o, OpenAIKeys(false))
            && RequiredInt(o, PromptTokens) == Some(u.input) && RequiredInt(o, CompletionTokens) == Some(u.output)
            && OptionalInt(o, TotalTokens) == Some(Some(u.input + u.output))
            && Absent(o, PromptCacheHit) && Absent(o, PromptCacheMiss) && Absent(o, CompletionTokensDetails)
  {
  }

  lemma ChatUsageBack(top: Fields, u: U.Usage)
    requires U.Fits(u) && U.Valid(u) && u.write == 0 && Usage in top && top[Usage] == ChatUsage(u)
    ensures ParseOpenAI(top, false) == Some(Some(u))
  {
    hide U.Valid, U.CheckedAdd, InputDetails, Only, RequiredInt, ZeroCounts, OpenAIKeys;
    Bounds(u);
    ChatDetails(u);
    ChatCounts(u);
  }

  lemma ResponsesDetails(u: U.Usage)
    requires 0 <= u.read <= U.MAX && 0 <= u.write <= U.MAX
    ensures InputDetails(ResponsesUsage(u).fields, InputTokensDetails, true) == Some((u.read, u.write))
    ensures OutputDetails(ResponsesUsage(u).fields, OutputTokensDetails, {ReasoningTokens})
  {
  }

  lemma ResponsesCounts(u: U.Usage)
    requires 0 <= u.input <= U.MAX && 0 <= u.output <= U.MAX && u.input + u.output <= U.MAX
    ensures var o := ResponsesUsage(u).fields;
            && Only(o, OpenAIKeys(true))
            && RequiredInt(o, InputTokens) == Some(u.input) && RequiredInt(o, OutputTokens) == Some(u.output)
            && OptionalInt(o, TotalTokens) == Some(Some(u.input + u.output))
  {
  }

  lemma ResponsesUsageBack(top: Fields, u: U.Usage)
    requires U.Fits(u) && U.Valid(u) && Usage in top && top[Usage] == ResponsesUsage(u)
    ensures ParseOpenAI(top, true) == Some(Some(u))
  {
    hide U.Valid, U.CheckedAdd, InputDetails, OutputDetails, Only, RequiredInt, OptionalInt, OpenAIKeys;
    Bounds(u);
    ResponsesDetails(u);
    ResponsesCounts(u);
  }

  lemma AnthropicUsageBack(top: Fields, u: U.Usage)
    requires U.Fits(u) && U.Valid(u) && Usage in top && top[Usage] == AnthropicUsage(u)
    ensures ParseAnthropic(top) == Some(Some(u))
  {
    hide U.Valid, U.CheckedAdd, U.Wrap;
    Bounds(u);
    var o := AnthropicUsage(u).fields;
    var input := u.input - u.read - u.write;
    assert OptionalInt(o, InputTokens) == Some(Some(input));
    U.CheckedIsExact(input, u.read);
    U.CheckedIsExact(input + u.read, u.write);
  }

  lemma GeminiUsageBack(top: Fields, u: U.Usage)
    requires U.Fits(u) && U.Valid(u) && u.write == 0 && UsageMetadata in top && top[UsageMetadata] == GeminiUsage(u)
    ensures ParseGemini(top) == Some(Some(u))
  {
    hide U.Valid, U.CheckedAdd;
    Bounds(u);
    var o := GeminiUsage(u).fields;
    assert OptionalInt(o, TotalTokenCount) == Some(Some(u.input + u.output));
  }

  lemma NoUsage(top: Fields)
    ensures Usage !in top ==> ParseOpenAI(top, false) == Some(None) && ParseOpenAI(top, true) == Some(None)
    ensures UsageMetadata !in top ==> ParseGemini(top) == Some(None)
  {
  }

  // ----- the same report, streamed -----

  function ParseCounts(p: U.Protocol, top: Fields): Option<Option<U.Usage>> {
    match p
    case OpenAIChat => ParseOpenAI(top, false)
    case OpenAIResponses => ParseOpenAI(top, true)
    case Anthropic => ParseAnthropic(top)
    case _ => ParseGemini(top)
  }

  /** The counters as the contract itself reports them, from the canonical ones that were read. */
  function Reported(p: U.Protocol, top: Fields, u: U.Usage): U.Usage {
    if p.Anthropic? && Usage in top && top[Usage].Obj? && InputTokens in top[Usage].fields && top[Usage].fields[InputTokens].Num?
    then u.(input := top[Usage].fields[InputTokens].n) else u
  }

  lemma ReadsTheReport(p: U.Protocol, top: Fields, u: U.Usage)
    requires ParseCounts(p, top) == Some(Some(u))
    ensures var w := Reported(p, top, u); U.Fits(w) && U.Parse(p, w, None) == Some(u)
  {
    hide U.Valid, U.CheckedAdd;
    if !p.Anthropic? {
      Bounds(u);
    }
  }

  /**
   A usage report that parse-then-marshal carries to another contract is carried there by the
   streaming conversion with the same counters.
   */
  lemma StreamedAlike(from: U.Protocol, to: U.Protocol, top: Fields, u: U.Usage)
    requires ParseCounts(from, top) == Some(Some(u)) && U.Marshal(to, u).Some?
    ensures U.Normalize(Reported(from, top, u), from, to) == U.Marshal(to, u)
    ensures to.Anthropic? ==> AnthropicUsage(u).fields[InputTokens] == Num(U.Marshal(to, u).value.input)
  {
    hide ParseCounts, Reported, U.Parse, U.Normalize;
    ReadsTheReport(from, top, u);
    U.PathsAgree(Reported(from, top, u), None, from, to);
  }
}
