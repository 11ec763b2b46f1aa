/**
 Translating a response, said of the two JSON bodies alone (internal/bridge/response.go:30-59,
 291-341, 1658-1732): which bodies are translated, and what the translation says of what the source
 said.
 */
module BridgeMeaning {
  import opened Wrappers
  import opened BridgeJson
  import opened BridgeCompletion
  import opened BridgeShape
  import opened BridgeReads
  import opened BridgeTranslate
  import U = BridgeUsage
  import BridgeChat
  import BridgeItems
  import BridgeMessages
  import BridgeGemini

  // ----- what a body says -----

  /** The body has the contract's shape for the completion. */
  ghost predicate Shows(h: Host, p: U.Protocol, body: Json, c: Completion) {
    match p
    case OpenAIChat => ChatShape(h.codec, body, c)
    case OpenAIResponses => ResponsesShape(h.codec, body, c)
    case Anthropic => MessagesShape(body, c)
    case Gemini => GeminiShape(body, false, c)
    case GeminiCodeAssist => GeminiShape(body, true, c)
  }

  /** A body in that shape, coherent, and for Chat Completions without calls under an ordinary stop. */
  ghost predicate Says(h: Host, p: U.Protocol, body: Json, c: Completion) {
    Shows(h, p, body, c) && Settled(c) && (p.OpenAIChat? ==> !(c.finish.Stopped? && CallsTool(c.blocks)))
  }

  /** Every contract's reader reads exactly what the body says. */
  lemma ReadsExactly(h: Host, p: U.Protocol, body: Json, c: Completion)
    ensures Parse(h, p, body) == Some(c) <==> Says(h, p, body, c)
  {
    hide ChatShape, ResponsesShape, MessagesShape, GeminiShape, Settled, CallsTool;
    hide BridgeChat.Parse, BridgeItems.Parse, BridgeMessages.Parse, BridgeGemini.Parse;
    match p
    case OpenAIChat => ChatExactly(h.codec, body, c);
    case OpenAIResponses => ResponsesExactly(h.codec, body, c);
    case Anthropic => MessagesExactly(body, c);
    case Gemini => GeminiExactly(body, false, c);
    case GeminiCodeAssist => GeminiExactly(body, true, c);
  }

  // ----- what the translation says -----

  /** An ordinary stop under which tools were called. */
  predicate Hides(c: Completion) {
    c.finish.Stopped? && CallsTool(c.blocks)
  }

  /**
   The translation `r` of the completion `c`: its model or the fallback, its usage, its texts and
   calls in order, each call with its identity or a new one, and its finish - except that Responses
   and Gemini have no stop for a message that called tools.
   */
  predicate Renders(to: U.Protocol, c: Completion, fallback: Word, r: Completion) {
    && r.model == (if c.model.Empty? then fallback else c.model) && r.usage == c.usage
    && !r.id.Empty? && (c.id.Empty? || r.id == c.id)
    && |r.blocks| == |c.blocks| && (forall i :: 0 <= i < |c.blocks| ==> SameBlock(c.blocks[i], r.blocks[i]))
    && r.finish == (if Hides(c) && !to.Anthropic? && !to.OpenAIChat? then ToolCalling else c.finish)
  }

  /** A Chat Completions body is written in its shape even where its own reader would refuse it. */
  lemma ChatWritten(codec: Codec, c: Completion)
    requires Sound(codec) && Ready(c) && BridgeChat.Write(codec, c).Some?
    ensures ChatShape(codec, BridgeChat.Write(codec, c).value, c.(blocks := CarriedAll(c.blocks)))
  {
    hide Sound, Ready, ChatShape, BridgeChat.WriteChoice, BridgeChat.ParseChoice, BridgeChat.Writable;
    hide Only, OptionalString, StringOrEmpty, IntOrZero, RequiredArray;
    ReadyFacts(c);
    BridgeChat.WrittenReads(codec, c);
    BridgeChat.ChoiceBack(codec, c);
    BridgeChat.WrittenUsage(codec, c);
    ChatShapeExactly(codec, BridgeChat.Write(codec, c).value, c.(blocks := CarriedAll(c.blocks)));
  }

  /** What the writer wrote, as the destination's contract shows it. */
  lemma WrittenShows(h: Host, to: U.Protocol, full: Completion) returns (r: Completion)
    requires HostOk(h) && Ready(full) && Marshal(h, to, full).Some? && (to.OpenAIResponses? ==> Plain(full.blocks))
    ensures Shows(h, to, Marshal(h, to, full).value, r)
    ensures r.id == full.id && r.model == full.model && r.usage == full.usage
    ensures |r.blocks| == |full.blocks| && forall i :: 0 <= i < |full.blocks| ==> Carried(full.blocks[i]) == Carried(r.blocks[i])
    ensures r.finish == if Hides(full) && !to.Anthropic? && !to.OpenAIChat? then ToolCalling else full.finish
  {
    hide Parse, Ready, HasTools, CallsTool, Valid, IdentitiesLegal, Carried, HostOk, Plain, ChatShape;
    var out := Marshal(h, to, full).value;
    var blocks := Back(h, to, full);
    ToolsMean(full.blocks);
    if Parse(h, to, out).Some? {
      r := Parse(h, to, out).value;
      ReadsExactly(h, to, out, r);
    } else {
      r := full.(blocks := CarriedAll(full.blocks));
      SoundHost(h);
      ChatWritten(h.codec, full);
      forall i | 0 <= i < |full.blocks| ensures Carried(full.blocks[i]) == Carried(r.blocks[i]) {
        CarriedTwice(full.blocks[i]);
      }
    }
  }

  lemma SoundHost(h: Host)
    requires HostOk(h)
    ensures Sound(h.codec)
  {
  }

  lemma CarriedTwice(b: Block)
    ensures Carried(Carried(b)) == Carried(b)
  {
  }

  /**
   A translation, body against body. Whatever the two protocols, if a body is translated then it
   says some completion in its own contract, and the translation shows, in the destination's, that
   completion with the same texts and calls in order, usage and finish, and the source's model or
   the fallback.
   */
  lemma TranslationSays(h: Host, from: U.Protocol, to: U.Protocol, body: Json, fallback: Word) returns (c: Completion, r: Completion)
    requires HostOk(h) && from != to && Translate(h, from, to, body, fallback).Some?
    ensures Says(h, from, body, c)
    ensures Shows(h, to, Translate(h, from, to, body, fallback).value, r)
    ensures Renders(to, c, fallback, r)
  {
    hide Parse, Write, Ready, Typed, HasTools, CallsTool, HostOk, Plain, Valid, IdentitiesLegal, SameBlock, Completes, Carried, Says, Shows, EnsureIdentities;
    c := Parse(h, from, body).value;
    ReadsExactly(h, from, body, c);
    ParsedTyped(h, from, body);
    var full := BridgeTranslate.Completed(h, c, fallback).value;
    FullIsReady(h, c, fallback);
    CompletesTools(c.blocks, full.blocks);
    ToolsMean(c.blocks);
    ToolsMean(full.blocks);
    r := WrittenShows(h, to, full);
    SameBlocks(c.blocks, full.blocks, r.blocks);
  }

  lemma FullIsReady(h: Host, c: Completion, fallback: Word)
    requires HostOk(h) && Typed(c) && BridgeTranslate.Completed(h, c, fallback).Some? && Valid(BridgeTranslate.Completed(h, c, fallback).value)
    ensures var full := BridgeTranslate.Completed(h, c, fallback).value;
            && Ready(full) && Identified(full.blocks, |full.blocks|)
            && full.model == (if c.model.Empty? then fallback else c.model)
            && !full.id.Empty? && (c.id.Empty? || full.id == c.id)
            && full.finish == c.finish && full.usage == c.usage && |full.blocks| == |c.blocks|
            && (forall i :: 0 <= i < |c.blocks| ==> Completes(c.blocks[i], full.blocks[i]))
  {
    hide BlocksValid, FillIds, Sound, DistinctCalls, Identified, U.Valid, HasTools, Completes;
    CompletedReady(h, c, fallback);
  }

  // ----- what is translated -----

  predicate Unnamed(bs: seq<Block>, i: nat) {
    i < |bs| && bs[i].ToolBlock? && bs[i].call.callId.Empty?
  }

  /** The identities generated for the first `n` blocks meet neither a given one nor each other. */
  predicate FreshIds(g: Generator, id: Word, bs: seq<Block>, n: nat) {
    forall i: nat :: i < n && Unnamed(bs, i) ==>
      && (forall j :: 0 <= j < |bs| && bs[j].ToolBlock? && !bs[j].call.callId.Empty? ==> g.call(id, i) != bs[j].call.callId)
      && (forall j: nat :: j < i && Unnamed(bs, j) ==> g.call(id, i) != g.call(id, j))
  }

  /** The i-th block with its identity, given or generated. */
  function Identify(g: Generator, id: Word, bs: seq<Block>, i: nat): Block
    requires i < |bs|
  {
    if Unnamed(bs, i) then ToolBlock(bs[i].call.(callId := g.call(id, i))) else bs[i]
  }

  function IdentifyAll(g: Generator, id: Word, bs: seq<Block>, n: nat): (r: seq<Block>)
    requires n <= |bs|
    ensures |r| == |bs| && forall i :: 0 <= i < |bs| ==> r[i] == if i < n then Identify(g, id, bs, i) else bs[i]
  {
    seq(|bs|, i requires 0 <= i < |bs| => if i < n then Identify(g, id, bs, i) else bs[i])
  }

  predicate GivenId(bs: seq<Block>, w: Word) {
    exists j :: 0 <= j < |bs| && bs[j].ToolBlock? && bs[j].call.callId == w
  }

  predicate NewId(g: Generator, id: Word, bs: seq<Block>, n: nat, w: Word) {
    exists j: nat :: j < n && Unnamed(bs, j) && g.call(id, j) == w
  }

  lemma UsedFrom(g: Generator, id: Word, bs: seq<Block>, n: nat, w: Word)
    requires n <= |bs| && w in CallIds(IdentifyAll(g, id, bs, n))
    ensures GivenId(bs, w) || NewId(g, id, bs, n, w)
  {
    hide IdentifyAll;
    var r := IdentifyAll(g, id, bs, n);
    var j: nat :| j < |r| && r[j].ToolBlock? && !r[j].call.callId.Empty? && r[j].call.callId == w;
    if j < n && Unnamed(bs, j) {
      assert g.call(id, j) == w;
    } else {
      assert bs[j] == r[j];
    }
  }

  lemma UsedBy(g: Generator, id: Word, bs: seq<Block>, n: nat, w: Word)
    requires n <= |bs| && !w.Empty? && (GivenId(bs, w) || NewId(g, id, bs, n, w))
    ensures w in CallIds(IdentifyAll(g, id, bs, n))
  {
    hide IdentifyAll;
    var r := IdentifyAll(g, id, bs, n);
    if GivenId(bs, w) {
      var j: nat :| j < |bs| && bs[j].ToolBlock? && bs[j].call.callId == w;
      assert r[j] == bs[j];
    } else {
      var j: nat :| j < n && Unnamed(bs, j) && g.call(id, j) == w;
      assert r[j].call.callId == w;
    }
  }

  lemma IdentifyNext(g: Generator, id: Word, bs: seq<Block>, n: nat)
    requires n < |bs|
    ensures var done := IdentifyAll(g, id, bs, n);
            done[n] == bs[n] && IdentifyAll(g, id, bs, n + 1) == if Unnamed(bs, n) then done[n := Identify(g, id, bs, n)] else done
  {
  }

  lemma {:induction false} FillExactly(g: Generator, id: Word, bs: seq<Block>, n: nat)
    requires n <= |bs| && Generates(g)
    ensures FillIds(g, id, bs, n) == if FreshIds(g, id, bs, n) then Some(IdentifyAll(g, id, bs, n)) else None
    decreases n
  {
    if n == 0 {
      assert IdentifyAll(g, id, bs, 0) == bs;
    } else {
      hide CallIds, Generates, FillIds, FreshIds, IdentifyAll;
      FillExactly(g, id, bs, n - 1);
      FreshNext(g, id, bs, n - 1);
      if FreshIds(g, id, bs, n - 1) {
        FillStep(g, id, bs, n - 1, IdentifyAll(g, id, bs, n - 1));
        IdentifyNext(g, id, bs, n - 1);
      } else {
        FillStops(g, id, bs, n - 1, n);
      }
    }
  }

  lemma FreshMeans(g: Generator, id: Word, bs: seq<Block>, n: nat)
    requires Generates(g)
    ensures FreshIds(g, id, bs, n) <==>
              forall i: nat :: i < n && Unnamed(bs, i) ==> !GivenId(bs, g.call(id, i)) && !NewId(g, id, bs, i, g.call(id, i))
  {
  }

  lemma FreshNext(g: Generator, id: Word, bs: seq<Block>, n: nat)
    requires n < |bs| && Generates(g)
    ensures FreshIds(g, id, bs, n + 1) <==>
              FreshIds(g, id, bs, n) && (Unnamed(bs, n) ==> g.call(id, n) !in CallIds(IdentifyAll(g, id, bs, n)))
  {
    hide CallIds, GivenId, NewId, IdentifyAll, FreshIds;
    FreshMeans(g, id, bs, n);
    FreshMeans(g, id, bs, n + 1);
    var w := g.call(id, n);
    if w in CallIds(IdentifyAll(g, id, bs, n)) { UsedFrom(g, id, bs, n, w); }
    if GivenId(bs, w) || NewId(g, id, bs, n, w) { UsedBy(g, id, bs, n, w); }
  }

  /** A block that goes on with the item of the one before it: texts of one item, in one state. */
  predicate GoesOn(a: Block, b: Block, response: Word) {
    && a.TextBlock? && b.TextBlock? && !a.item.Empty? && a.item == b.item
    && (if a.status == Word.Completed || a.status == Word.Incomplete then a.status else response)
       == (if b.status == Word.Completed || b.status == Word.Incomplete then b.status else response)
  }

  /** The block begins an output item of its own. */
  predicate Begins(bs: seq<Block>, response: Word, i: nat) {
    i < |bs| && (i == 0 || !GoesOn(bs[i - 1], bs[i], response))
  }

  /** The item identity written for a block: its own, or a generated one where it has none or only its call's. */
  function WrittenItem(g: Generator, id: Word, bs: seq<Block>, i: nat): Word
    requires i < |bs|
  {
    match bs[i]
    case TextBlock(_, item, _) => if item.Empty? then g.item(false, id, i) else item
    case ToolBlock(c) => if c.item.Empty? || c.item == c.callId then g.item(true, id, i) else c.item
  }

  /** Two items have identities of their own. */
  predicate Apart(g: Generator, id: Word, bs: seq<Block>, response: Word, j: nat, k: nat)
    requires j < |bs| && k < |bs|
  {
    Begins(bs, response, j) && Begins(bs, response, k) ==> WrittenItem(g, id, bs, j) != WrittenItem(g, id, bs, k)
  }

  /** The item that begins at the block, if one does, is not among the seen. */
  predicate Unseen(g: Generator, id: Word, bs: seq<Block>, response: Word, j: nat, seen: set<Word>)
    requires j < |bs|
  {
    Begins(bs, response, j) ==> WrittenItem(g, id, bs, j) !in seen
  }

  /** From block `i` on, items have identities not yet seen and pairwise distinct. */
  ghost predicate ItemsFresh(g: Generator, id: Word, bs: seq<Block>, response: Word, i: nat, seen: set<Word>) {
    && (forall j: nat :: i <= j < |bs| ==> Unseen(g, id, bs, response, j, seen))
    && (forall j: nat, k: nat :: i <= j < k < |bs| ==> Apart(g, id, bs, response, j, k))
  }

  lemma UnseenMore(g: Generator, id: Word, bs: seq<Block>, response: Word, i: nat, j: nat, seen: set<Word>)
    requires i < |bs| && j < |bs| && Begins(bs, response, i)
    ensures Unseen(g, id, bs, response, j, seen + {WrittenItem(g, id, bs, i)}) <==>
              Unseen(g, id, bs, response, j, seen) && Apart(g, id, bs, response, i, j)
  {
    hide Begins, WrittenItem;
  }

  lemma NotAnItem(g: Generator, id: Word, bs: seq<Block>, response: Word, i: nat, j: nat, seen: set<Word>)
    requires i < |bs| && j < |bs| && !Begins(bs, response, j)
    ensures Unseen(g, id, bs, response, j, seen) && Apart(g, id, bs, response, i, j) && Apart(g, id, bs, response, j, i)
  {
    hide Begins, WrittenItem;
  }

  lemma ItemsFreshAfter(g: Generator, id: Word, bs: seq<Block>, response: Word, i: nat, e: nat, seen: set<Word>)
    requires i < e <= |bs| && Begins(bs, response, i) && ItemsFresh(g, id, bs, response, i, seen)
    ensures WrittenItem(g, id, bs, i) !in seen && ItemsFresh(g, id, bs, response, e, seen + {WrittenItem(g, id, bs, i)})
  {
    hide Begins, WrittenItem, Apart, Unseen;
    FirstUnseen(g, id, bs, response, i, seen);
    forall j: nat | e <= j < |bs| ensures Unseen(g, id, bs, response, j, seen + {WrittenItem(g, id, bs, i)}) {
      UnseenMore(g, id, bs, response, i, j, seen);
    }
  }

  lemma UnseenBefore(g: Generator, id: Word, bs: seq<Block>, response: Word, i: nat, e: nat, seen: set<Word>, j: nat)
    requires i < e <= |bs| && Begins(bs, response, i) && forall k: nat :: i < k < e ==> !Begins(bs, response, k)
    requires WrittenItem(g, id, bs, i) !in seen && ItemsFresh(g, id, bs, response, e, seen + {WrittenItem(g, id, bs, i)}) && i <= j < |bs|
    ensures Unseen(g, id, bs, response, j, seen) && (i < j ==> Apart(g, id, bs, response, i, j))
  {
    hide Begins, WrittenItem, Apart, Unseen;
    if j == i {
      FirstUnseen(g, id, bs, response, i, seen);
    } else if j < e {
      NotAnItem(g, id, bs, response, i, j, seen);
    } else {
      UnseenMore(g, id, bs, response, i, j, seen);
    }
  }

  lemma ItemsFreshBefore(g: Generator, id: Word, bs: seq<Block>, response: Word, i: nat, e: nat, seen: set<Word>)
    requires i < e <= |bs| && Begins(bs, response, i) && forall k: nat :: i < k < e ==> !Begins(bs, response, k)
    requires WrittenItem(g, id, bs, i) !in seen && ItemsFresh(g, id, bs, response, e, seen + {WrittenItem(g, id, bs, i)})
    ensures ItemsFresh(g, id, bs, response, i, seen)
  {
    hide Begins, WrittenItem, Apart, Unseen;
    forall j: nat | i <= j < |bs| ensures Unseen(g, id, bs, response, j, seen) {
      UnseenBefore(g, id, bs, response, i, e, seen, j);
    }
    forall j: nat, k: nat | i <= j < k < |bs| ensures Apart(g, id, bs, response, j, k) {
      if j == i {
        UnseenBefore(g, id, bs, response, i, e, seen, k);
      } else if j < e {
        NotAnItem(g, id, bs, response, k, j, seen);
      }
    }
  }

  lemma ItemsFreshNext(g: Generator, id: Word, bs: seq<Block>, response: Word, i: nat, e: nat, seen: set<Word>)
    requires i < e <= |bs| && Begins(bs, response, i) && forall k: nat :: i < k < e ==> !Begins(bs, response, k)
    ensures var item := WrittenItem(g, id, bs, i);
            ItemsFresh(g, id, bs, response, i, seen) <==> item !in seen && ItemsFresh(g, id, bs, response, e, seen + {item})
  {
    hide Begins, WrittenItem, ItemsFresh;
    var item := WrittenItem(g, id, bs, i);
    if ItemsFresh(g, id, bs, response, i, seen) { ItemsFreshAfter(g, id, bs, response, i, e, seen); }
    if item !in seen && ItemsFresh(g, id, bs, response, e, seen + {item}) { ItemsFreshBefore(g, id, bs, response, i, e, seen); }
  }

  lemma FirstUnseen(g: Generator, id: Word, bs: seq<Block>, response: Word, i: nat, seen: set<Word>)
    requires i < |bs| && Begins(bs, response, i)
    ensures Unseen(g, id, bs, response, i, seen) <==> WrittenItem(g, id, bs, i) !in seen
  {
    hide Begins, WrittenItem;
  }

  /** Where the item that begins at `i` ends. */
  lemma RunIs(bs: seq<Block>, response: Word, i: nat)
    requires i < |bs|
    ensures var e := BridgeItems.FirstEnd(bs, response, i);
            && i < e <= |bs| && (e < |bs| ==> Begins(bs, response, e)) && forall k: nat :: i < k < e ==> !Begins(bs, response, k)
  {
    if bs[i].TextBlock? { RunEnds(bs, response, i, i + 1); }
  }

  lemma GoesOnMeans(a: Block, b: Block, response: Word)
    requires a.TextBlock? && b.TextBlock?
    ensures GoesOn(a, b, response) <==>
              !a.item.Empty? && a.item == b.item && BridgeItems.ItemStatus(a.status, response) == BridgeItems.ItemStatus(b.status, response)
  {
  }

  /** The run of the item that begins at `i` goes on through `j - 1`. */
  ghost predicate InRun(bs: seq<Block>, response: Word, i: nat, j: nat)
    requires i < j <= |bs|
  {
    && bs[i].TextBlock? && bs[j - 1].TextBlock? && bs[j - 1].item == bs[i].item
    && BridgeItems.ItemStatus(bs[j - 1].status, response) == BridgeItems.ItemStatus(bs[i].status, response)
  }

  /** The item's run from `j` on stops exactly where a block does not go on. */
  lemma RunStops(bs: seq<Block>, response: Word, i: nat, j: nat)
    requires i < j <= |bs| && InRun(bs, response, i, j)
    ensures var item, status := bs[i].item, BridgeItems.ItemStatus(bs[i].status, response);
            BridgeItems.RunEnd(bs, j, item, status, response) ==
              if j < |bs| && GoesOn(bs[j - 1], bs[j], response) then BridgeItems.RunEnd(bs, j + 1, item, status, response) else j
  {
    hide GoesOn, BridgeItems.ItemStatus;
    if j < |bs| {
      if bs[j].TextBlock? { GoesOnMeans(bs[j - 1], bs[j], response); } else { GoesOnTexts(bs[j - 1], bs[j], response); }
    }
  }

  lemma RunGoesOn(bs: seq<Block>, response: Word, i: nat, j: nat)
    requires i < j < |bs| && InRun(bs, response, i, j) && GoesOn(bs[j - 1], bs[j], response)
    ensures InRun(bs, response, i, j + 1)
  {
    hide GoesOn, BridgeItems.ItemStatus;
    GoesOnTexts(bs[j - 1], bs[j], response);
    GoesOnMeans(bs[j - 1], bs[j], response);
  }

  lemma {:induction false} RunEnds(bs: seq<Block>, response: Word, i: nat, j: nat)
    requires i < j <= |bs| && InRun(bs, response, i, j)
    ensures var e := BridgeItems.RunEnd(bs, j, bs[i].item, BridgeItems.ItemStatus(bs[i].status, response), response);
            && j <= e <= |bs| && (e < |bs| ==> Begins(bs, response, e)) && forall k: nat :: j <= k < e ==> !Begins(bs, response, k)
    decreases |bs| - j
  {
    hide GoesOn, BridgeItems.RunEnd, BridgeItems.ItemStatus, InRun;
    RunStops(bs, response, i, j);
    if j < |bs| && GoesOn(bs[j - 1], bs[j], response) {
      RunGoesOn(bs, response, i, j);
      RunEnds(bs, response, i, j + 1);
    }
  }

  lemma GoesOnTexts(a: Block, b: Block, response: Word)
    ensures GoesOn(a, b, response) ==> a.TextBlock? && b.TextBlock?
  {
  }

  lemma {:induction false} ItemsWritten(codec: Codec, g: Generator, id: Word, bs: seq<Block>, response: Word, i: nat, seen: set<Word>)
    requires i <= |bs| && (i < |bs| ==> Begins(bs, response, i))
    ensures BridgeItems.WriteItems(codec, g, id, bs, response, i, seen).Some? <==> ItemsFresh(g, id, bs, response, i, seen)
    decreases |bs| - i
  {
    hide BridgeItems.FirstJson, BridgeItems.FirstEnd, ItemsFresh, Begins, WrittenItem;
    if i == |bs| {
      NoItems(g, id, bs, response, seen);
    } else {
      var e := BridgeItems.FirstEnd(bs, response, i);
      RunIs(bs, response, i);
      SameItem(g, id, bs, i);
      ItemsWritten(codec, g, id, bs, response, e, seen + {WrittenItem(g, id, bs, i)});
      ItemsFreshNext(g, id, bs, response, i, e, seen);
    }
  }

  lemma NoItems(g: Generator, id: Word, bs: seq<Block>, response: Word, seen: set<Word>)
    ensures ItemsFresh(g, id, bs, response, |bs|, seen)
  {
  }

  lemma SameItem(g: Generator, id: Word, bs: seq<Block>, i: nat)
    requires i < |bs|
    ensures BridgeItems.FirstItem(g, id, bs, i) == WrittenItem(g, id, bs, i)
  {
  }

  /** The destination's contract has a place for everything: its own limits on usage, on the order of texts and calls, and on item identities. */
  ghost predicate HasRoom(h: Host, to: U.Protocol, c: Completion) {
    match to
    case OpenAIChat => (forall i :: 1 <= i < |c.blocks| ==> c.blocks[i].ToolBlock?) && (c.usage.Some? ==> c.usage.value.write == 0)
    case OpenAIResponses =>
      h.envelope.Some? && ItemsFresh(h.gen, c.id, c.blocks, if c.finish.Cut? then Word.Incomplete else Word.Completed, 0, {})
    case Anthropic => c.usage.Some?
    case Gemini => c.usage.Some? ==> c.usage.value.write == 0
    case GeminiCodeAssist => c.usage.Some? ==> c.usage.value.write == 0
  }

  lemma WritesExactly(h: Host, to: U.Protocol, c: Completion)
    ensures Write(h, to, c).Some? <==> HasRoom(h, to, c)
  {
    hide ItemsFresh, BridgeItems.WriteItems;
    var status := if c.finish.Cut? then Word.Incomplete else Word.Completed;
    ItemsWritten(h.codec, h.gen, c.id, c.blocks, status, 0, {});
  }

  /** The completion as it reaches the writer. */
  function Filled(h: Host, c: Completion, fallback: Word): Completion {
    var id := if c.id.Empty? then h.gen.response else c.id;
    Completion(id, if c.model.Empty? then fallback else c.model, if c.created == 0 then h.gen.now else c.created,
               IdentifyAll(h.gen, id, c.blocks, |c.blocks|), c.finish, c.usage)
  }

  /** The destination's identity grammar admits every call. */
  predicate Admitted(h: Host, to: U.Protocol, bs: seq<Block>) {
    forall i :: 0 <= i < |bs| && bs[i].ToolBlock? ==> h.identity(to, bs[i].call.name, bs[i].call.callId)
  }

  /** Some model is known, the generated identities are new, the destination's identity grammar admits every call, and there is room for the rest. */
  ghost predicate Translatable(h: Host, to: U.Protocol, c: Completion, fallback: Word) {
    var full := Filled(h, c, fallback);
    && !full.model.Empty? && FreshIds(h.gen, full.id, c.blocks, |c.blocks|)
    && Admitted(h, to, full.blocks) && HasRoom(h, to, full)
  }

  lemma CompletedExactly(h: Host, c: Completion, fallback: Word)
    requires Generates(h.gen)
    ensures var full := Filled(h, c, fallback);
            BridgeTranslate.Completed(h, c, fallback) ==
              if !full.model.Empty? && FreshIds(h.gen, full.id, c.blocks, |c.blocks|) then Some(full) else None
  {
    hide FreshIds, IdentifyAll, Generates, FillIds;
    FillExactly(h.gen, if c.id.Empty? then h.gen.response else c.id, c.blocks, |c.blocks|);
  }

  lemma IdentifiedApart(g: Generator, id: Word, bs: seq<Block>, i: nat, j: nat)
    requires Generates(g) && Coherent(bs) && FreshIds(g, id, bs, |bs|) && i < j < |bs| && bs[i].ToolBlock? && bs[j].ToolBlock?
    ensures Identify(g, id, bs, i).call.callId != Identify(g, id, bs, j).call.callId
  {
    if Unnamed(bs, j) {
      assert Identify(g, id, bs, j).call.callId == g.call(id, j);
    } else if Unnamed(bs, i) {
      assert Identify(g, id, bs, i).call.callId == g.call(id, i);
    }
  }

  lemma IdentifySame(g: Generator, id: Word, bs: seq<Block>, i: nat)
    requires i < |bs|
    ensures var b := Identify(g, id, bs, i);
            && ItemId(b) == ItemId(bs[i]) && b.ToolBlock? == bs[i].ToolBlock?
            && (b.ToolBlock? ==> b.call.item == bs[i].call.item && b.call.name == bs[i].call.name && b.call.args == bs[i].call.args)
  {
  }

  lemma IdentifiedCoherent(g: Generator, id: Word, bs: seq<Block>)
    requires Generates(g) && Coherent(bs) && FreshIds(g, id, bs, |bs|)
    ensures Coherent(IdentifyAll(g, id, bs, |bs|))
  {
    hide Generates, FreshIds, Identify, ItemId;
    var r := IdentifyAll(g, id, bs, |bs|);
    forall i: nat | i < |bs|
      ensures ItemId(r[i]) == ItemId(bs[i]) && r[i].ToolBlock? == bs[i].ToolBlock?
      ensures r[i].ToolBlock? ==> r[i].call.item == bs[i].call.item && r[i].call.name == bs[i].call.name && r[i].call.args == bs[i].call.args
    {
      IdentifySame(g, id, bs, i);
    }
    forall i, j | 0 <= i < j < |bs| && r[i].ToolBlock? && r[j].ToolBlock? ensures r[i].call.callId != r[j].call.callId {
      IdentifiedApart(g, id, bs, i, j);
    }
  }

  lemma FilledValid(h: Host, c: Completion, fallback: Word)
    requires Generates(h.gen) && Valid(c) && (c.usage.Some? ==> U.Fits(c.usage.value))
    requires FreshIds(h.gen, Filled(h, c, fallback).id, c.blocks, |c.blocks|)
    ensures Valid(Filled(h, c, fallback)) && !Filled(h, c, fallback).id.Empty?
  {
    hide Coherent, FreshIds, Valid, CallsTool;
    var full := Filled(h, c, fallback);
    ValidExactly(c);
    IdentifiedCoherent(h.gen, full.id, c.blocks);
    SameTools(h.gen, full.id, c.blocks);
    ValidExactly(full);
  }

  lemma SameTools(g: Generator, id: Word, bs: seq<Block>)
    ensures CallsTool(IdentifyAll(g, id, bs, |bs|)) <==> CallsTool(bs)
  {
    var r := IdentifyAll(g, id, bs, |bs|);
    assert forall i :: 0 <= i < |bs| ==> (r[i].ToolBlock? <==> bs[i].ToolBlock?);
  }

  /** A body is translated exactly when it says a completion in its own contract for which the destination has a place. */
  lemma TranslatesExactly(h: Host, from: U.Protocol, to: U.Protocol, body: Json, fallback: Word)
    requires HostOk(h) && from != to
    ensures Translate(h, from, to, body, fallback).Some? <==>
              exists c :: Says(h, from, body, c) && Translatable(h, to, c, fallback)
  {
    hide Parse, Says, Translatable;
    var p := Parse(h, from, body);
    if p.Some? {
      ReadsExactly(h, from, body, p.value);
      PlaceExactly(h, from, to, body, fallback);
      forall d | Says(h, from, body, d) ensures d == p.value { ReadsExactly(h, from, body, d); }
    } else {
      forall d ensures !Says(h, from, body, d) { ReadsExactly(h, from, body, d); }
    }
  }

  lemma MarshalExactly(h: Host, to: U.Protocol, full: Completion)
    requires Valid(full) && !full.id.Empty?
    ensures Marshal(h, to, full).Some? <==> Admitted(h, to, full.blocks) && HasRoom(h, to, full)
  {
    hide Write, HasRoom, Valid;
    WritesExactly(h, to, full);
  }

  lemma PlaceExactly(h: Host, from: U.Protocol, to: U.Protocol, body: Json, fallback: Word)
    requires HostOk(h) && from != to && Parse(h, from, body).Some?
    ensures Translate(h, from, to, body, fallback).Some? <==> Translatable(h, to, Parse(h, from, body).value, fallback)
  {
    hide Parse, Marshal, HasRoom, FreshIds, Valid, Typed, BridgeTranslate.Completed, Filled, Plain, Sound, Generates, HasTools, Admitted;
    var c := Parse(h, from, body).value;
    ParsedTyped(h, from, body);
    TypedFacts(c);
    CompletedExactly(h, c, fallback);
    var full := Filled(h, c, fallback);
    if FreshIds(h.gen, full.id, c.blocks, |c.blocks|) {
      FilledValid(h, c, fallback);
      MarshalExactly(h, to, full);
    }
  }

  lemma TypedFacts(c: Completion)
    requires Typed(c)
    ensures Valid(c) && (c.usage.Some? ==> U.Fits(c.usage.value))
  {
  }
}
