/**
 Gemini generateContent and Code Assist responses (internal/bridge/response.go:1077-1230, 1620-1656).
 */
module BridgeGemini {
  import opened Wrappers
  import opened BridgeJson
  import opened BridgeCompletion
  import BridgeCounts

  // ----- reading -----

  function ParseCall(o: Fields): Option<Block> {
    var _ :- Need(Only(o, {FunctionCallCamel, Thought, ThoughtSignature, PartMetadata}));
    var call :- RequiredObject(o, FunctionCallCamel);
    var _ :- Need(Only(call, {Id, Name, Args}));
    var id :- StringOrEmpty(call, Id);
    var name :- RequiredString(call, Name);
    var args :- RequiredObject(call, Args);
    Some(ToolBlock(Call(id, Empty, name, Obj(args), Empty)))
  }

  function ParsePart(j: Json): Option<Block> {
    var o :- AsObject(j);
    var _ :- Need(!Meaningful(o, ThoughtSignature) && !Meaningful(o, PartMetadata));
    var _ :- Need(Absent(o, Thought) || o[Thought] == Bool(false));
    var _ :- Need((Text in o) != (FunctionCallCamel in o));
    if Text in o then
      var _ :- Need(Only(o, {Text, Thought, ThoughtSignature, PartMetadata}));
      var text :- RequiredString(o, Text);
      Some(TextBlock(text, Empty, Empty))
    else ParseCall(o)
  }

  function ParseParts(js: seq<Json>): Option<seq<Block>> {
    if js == [] then Some([])
    else
      var front :- ParseParts(js[..|js| - 1]);
      var last :- ParsePart(js[|js| - 1]);
      Some(front + [last])
  }

  function ParseFinish(w: Word): Option<Finish> {
    match w
    case GeminiStop => Some(Stopped)
    case GeminiMaxTokens => Some(Cut)
    case _ => None
  }

  function ParseCandidate(j: Json): Option<(Finish, seq<Block>)> {
    var o :- AsObject(j);
    var _ :- Need(Only(o, {Content, FinishReasonCamel, Index}));
    var index :- IntOrZero(o, Index);
    var _ :- Need(index == 0);
    var reason :- RequiredString(o, FinishReasonCamel);
    var finish :- ParseFinish(reason);
    var content :- RequiredObject(o, Content);
    var _ :- Need(Only(content, {Role, Parts}));
    var role :- RequiredString(content, Role);
    var _ :- Need(role.ModelRole?);
    var parts :- RequiredArray(content, Parts);
    var blocks :- ParseParts(parts);
    Some((finish, blocks))
  }

  function ParseInner(top: Fields): Option<Completion> {
    var _ :- Need(Only(top, {Candidates, UsageMetadata, ModelVersion, ResponseId}));
    var model :- StringOrEmpty(top, ModelVersion);
    var id :- StringOrEmpty(top, ResponseId);
    var candidates :- RequiredArray(top, Candidates);
    var _ :- Need(|candidates| == 1);
    var candidate :- ParseCandidate(candidates[0]);
    var finish := if candidate.0.Stopped? && HasTools(candidate.1) then ToolCalling else candidate.0;
    var usage :- BridgeCounts.ParseGemini(top);
    var c := Completion(id, model, 0, candidate.1, finish, usage);
    var _ :- Need(Valid(c));
    Some(c)
  }

  function Parse(j: Json, wrapped: bool): Option<Completion> {
    var top :- AsObject(j);
    if wrapped then
      var _ :- Need(Only(top, {Response}));
      var inner :- RequiredObject(top, Response);
      ParseInner(inner)
    else
      var _ :- Need(Response !in top);
      ParseInner(top)
  }

  // ----- writing -----

  function WritePart(b: Block): Json {
    if b.TextBlock? then Obj(map[Text := Str(b.text)])
    else Obj(map[FunctionCallCamel := Obj(map[Id := Str(b.call.callId), Name := Str(b.call.name), Args := b.call.args])])
  }

  function WriteParts(bs: seq<Block>): seq<Json> {
    if bs == [] then [] else WriteParts(bs[..|bs| - 1]) + [WritePart(bs[|bs| - 1])]
  }

  function WriteCandidate(c: Completion): Json {
    Obj(map[Index := Num(0), Content := Obj(map[Role := Str(ModelRole), Parts := Arr(WriteParts(c.blocks))]),
            FinishReasonCamel := Str(if c.finish.Cut? then GeminiMaxTokens else GeminiStop)])
  }

  function WriteInner(c: Completion): Json {
    var top := map[ModelVersion := Str(c.model), Candidates := Arr([WriteCandidate(c)]), ResponseId := Str(c.id)];
    Obj(if c.usage.None? then top else top[UsageMetadata := BridgeCounts.GeminiUsage(c.usage.value)])
  }

  function Write(c: Completion, wrapped: bool): Option<Json> {
    var _ :- Need(c.usage.None? || c.usage.value.write == 0);
    Some(if wrapped then Obj(map[Response := WriteInner(c)]) else WriteInner(c))
  }

  // ----- written, then read -----

  lemma PartBack(b: Block)
    requires b.ToolBlock? ==> b.call.args.Obj?
    ensures ParsePart(WritePart(b)) == Some(Carried(b))
  {
    if b.ToolBlock? {
      var o := WritePart(b).fields;
      var call := o[FunctionCallCamel].fields;
      assert RequiredObject(call, Args) == Some(b.call.args.fields);
      assert OptionalString(call, Id) == Some(Some(b.call.callId));
    }
  }

  lemma {:induction false} PartsBack(bs: seq<Block>)
    requires Complete(bs)
    ensures ParseParts(WriteParts(bs)) == Some(CarriedAll(bs))
  {
    hide WritePart, ParsePart;
    if bs != [] {
      var init, last := bs[..|bs| - 1], bs[|bs| - 1];
      PartsBack(init);
      PartBack(last);
      var js := WriteParts(bs);
      assert js[..|js| - 1] == WriteParts(init) && js[|js| - 1] == WritePart(last);
      assert CarriedAll(bs) == CarriedAll(init) + [Carried(last)];
    }
  }

  lemma CandidateBack(c: Completion)
    requires Complete(c.blocks)
    ensures ParseCandidate(WriteCandidate(c)) == Some((if c.finish.Cut? then Cut else Stopped, CarriedAll(c.blocks)))
  {
    hide ParseParts, WriteParts;
    PartsBack(c.blocks);
    var o := WriteCandidate(c).fields;
    assert OptionalInt(o, Index) == Some(Some(0));
    assert RequiredString(o, FinishReasonCamel) == Some(if c.finish.Cut? then GeminiMaxTokens else GeminiStop);
    var content := o[Content].fields;
    assert RequiredArray(content, Parts) == Some(WriteParts(c.blocks));
  }

  /** The termination Gemini reports: a stop with tool calls is a tool-call termination. */
  function Told(c: Completion): Finish {
    if c.finish.Stopped? && HasTools(c.blocks) then ToolCalling else c.finish
  }

  lemma InnerBack(c: Completion)
    requires Ready(c) && (c.usage.None? || c.usage.value.write == 0)
    ensures ParseInner(WriteInner(c).fields) == Some(c.(blocks := CarriedAll(c.blocks), created := 0, finish := Told(c)))
  {
    hide ParseCandidate, WriteCandidate, BridgeCounts.ParseGemini, BridgeCounts.GeminiUsage, Valid, HasTools;
    var top := WriteInner(c).fields;
    ReadyFacts(c);
    CandidateBack(c);
    if c.usage.Some? {
      BridgeCounts.GeminiUsageBack(top, c.usage.value);
    } else {
      BridgeCounts.NoUsage(top);
    }
    CarriedReady(c);
    FinishIsTold(c);
    assert OptionalString(top, ModelVersion) == Some(Some(c.model));
    assert OptionalString(top, ResponseId) == Some(Some(c.id));
    assert RequiredArray(top, Candidates) == Some([WriteCandidate(c)]);
  }

  lemma FinishIsTold(c: Completion)
    requires Ready(c)
    ensures Valid(c.(blocks := CarriedAll(c.blocks), created := 0, finish := Told(c)))
  {
    hide BlocksValid;
    CarriedReady(c);
    ReadyFacts(c);
  }

  /** A written response reads back as what it was written from, but for a stop that hides a tool call. */
  lemma Back(c: Completion, wrapped: bool)
    requires Ready(c) && Write(c, wrapped).Some?
    ensures Parse(Write(c, wrapped).value, wrapped) == Some(c.(blocks := CarriedAll(c.blocks), created := 0, finish := Told(c)))
  {
    hide ParseInner, WriteInner;
    InnerBack(c);
    InnerIsPlain(c);
  }

  lemma InnerIsPlain(c: Completion)
    ensures WriteInner(c).Obj? && Response !in WriteInner(c).fields
  {
  }

  lemma {:induction false} PartsPlain(js: seq<Json>)
    ensures var r := ParseParts(js); r.Some? ==> Plain(r.value)
  {
    if js != [] {
      PartsPlain(js[..|js| - 1]);
    }
  }

  lemma InnerTyped(top: Fields)
    requires ParseInner(top).Some?
    ensures var c := ParseInner(top).value; Typed(c) && Plain(c.blocks) && !(c.finish.Stopped? && HasTools(c.blocks))
  {
    hide ParseParts, Valid, HasTools;
    PartsPlain(top[Candidates].items[0].fields[Content].fields[Parts].items);
  }

  lemma ParsedTyped(j: Json, wrapped: bool)
    requires Parse(j, wrapped).Some?
    ensures var c := Parse(j, wrapped).value; Typed(c) && Plain(c.blocks) && !(c.finish.Stopped? && HasTools(c.blocks))
  {
    hide ParseInner, Valid, HasTools;
    InnerTyped(if wrapped then j.fields[Response].fields else j.fields);
  }
}
