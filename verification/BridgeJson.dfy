/**
 JSON trees as the response bridge reads and writes them (internal/bridge/response.go:405-519).

 Member names and the strings the contracts give a meaning are enumerated, and a string that has an
 enumerated word stands as that word; the strings that have none are `Other`. The type does not rule
 out `Other` around an enumerated string: such a word stands for no string, and the laws hold of it
 too. A number is an integer literal or something else. The text of a nested JSON object goes
 through a codec.
 */
module BridgeJson {
  import opened Wrappers
  import U = BridgeUsage

  datatype Word =
    | Empty
    | Assistant | ModelRole
    | ChatCompletion | ResponseObject | MessageType
    | Stop | ToolCallsReason | Length
    | FunctionType | FunctionCallType | OutputText | TextType | ToolUse
    | Completed | Incomplete | MaxOutputTokens
    | EndTurn | StopSequence | MaxTokens
    | GeminiStop | GeminiMaxTokens
    | Other(text: string)

  /** Members the bridge names; `Echo` is a documented Responses member it only lets pass. */
  datatype Key =
    | Id | Object | Created | Model | Choices | Usage | SystemFingerprint | ServiceTier
    | Index | Message | FinishReason | Logprobs
    | Role | Content | ToolCalls | Refusal | Annotations | Audio | FunctionCall
    | Type | Function | Name | Arguments
    | CreatedAt | Status | Error | IncompleteDetails | Moderation | Output | Reason
    | ParallelToolCalls | ToolChoice | Tools | Echo(which: nat)
    | CallId | Text
    | StopReason | StopSequenceKey | Citations | Input | Caller
    | Response | Candidates | UsageMetadata | ModelVersion | ResponseId
    | FinishReasonCamel | Parts | ThoughtSignature | PartMetadata | Thought | FunctionCallCamel | Args
    | PromptTokens | CompletionTokens | TotalTokens | PromptTokensDetails | CompletionTokensDetails
    | PromptCacheHit | PromptCacheMiss
    | InputTokens | OutputTokens | InputTokensDetails | OutputTokensDetails
    | CachedTokens | CacheWriteTokens | AudioTokens | ImageTokens | TextTokens
    | ReasoningTokens | AcceptedPrediction | RejectedPrediction
    | CacheReadInput | CacheCreationInput
    | PromptTokenCount | CandidatesTokenCount | TotalTokenCount | CachedContentTokenCount
    | OtherKey(name: string)

  datatype Json =
    | Null
    | Bool(flag: bool)
    | Num(n: int)
    | Fraction(literal: string)
    | Str(word: Word)
    | Arr(items: seq<Json>)
    | Obj(fields: map<Key, Json>)

  type Fields = map<Key, Json>

  /** Argument texts: `decode` accepts exactly the texts that are one strict JSON object. */
  datatype Codec = Codec(encode: Json -> Word, decode: Word -> Option<Json>)

  ghost predicate Sound(codec: Codec) {
    && (forall j: Json :: j.Obj? ==> codec.decode(codec.encode(j)) == Some(j))
    && (forall w :: codec.decode(w).Some? ==> codec.decode(w).value.Obj?)
  }

  // ----- reading members -----

  function AsObject(j: Json): Option<Fields> {
    if j.Obj? then Some(j.fields) else None
  }

  predicate Absent(o: Fields, k: Key) {
    k !in o || o[k].Null?
  }

  function RequiredString(o: Fields, k: Key): Option<Word> {
    if k in o && o[k].Str? then Some(o[k].word) else None
  }

  /** An absent or null member is no string; anything else must be one. */
  function OptionalString(o: Fields, k: Key): Option<Option<Word>> {
    if Absent(o, k) then Some(None) else if o[k].Str? then Some(Some(o[k].word)) else None
  }

  /** The same, with the empty string for none. */
  function StringOrEmpty(o: Fields, k: Key): Option<Word> {
    var w :- OptionalString(o, k);
    Some(if w.None? then Empty else w.value)
  }

  predicate IsCount(j: Json) {
    j.Num? && 0 <= j.n <= U.MAX
  }

  function OptionalInt(o: Fields, k: Key): Option<Option<int>> {
    if Absent(o, k) then Some(None) else if IsCount(o[k]) then Some(Some(o[k].n)) else None
  }

  function IntOrZero(o: Fields, k: Key): Option<int> {
    var n :- OptionalInt(o, k);
    Some(if n.None? then 0 else n.value)
  }

  function RequiredInt(o: Fields, k: Key): Option<int> {
    var n :- OptionalInt(o, k);
    n
  }

  function RequiredArray(o: Fields, k: Key): Option<seq<Json>> {
    if k in o && o[k].Arr? then Some(o[k].items) else None
  }

  function RequiredObject(o: Fields, k: Key): Option<Fields> {
    if k in o then AsObject(o[k]) else None
  }

  /** Present and neither null nor empty. */
  predicate Meaningful(o: Fields, k: Key) {
    k in o && o[k] != Null && o[k] != Arr([]) && o[k] != Obj(map[]) && o[k] != Str(Empty)
  }

  predicate Only(o: Fields, allowed: set<Key>) {
    forall k :: k in o ==> k in allowed
  }

  /** Every listed count is absent or zero. */
  predicate ZeroCounts(o: Fields, keys: set<Key>) {
    forall k :: k in keys ==> OptionalInt(o, k) == Some(None) || OptionalInt(o, k) == Some(Some(0))
  }
}
