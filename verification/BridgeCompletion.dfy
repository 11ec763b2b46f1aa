/**
 The canonical completion between two response contracts: what makes one valid
 (internal/bridge/response.go:249-289, 334-383) and how missing identities are filled in
 (internal/bridge/response.go:1658-1717).
 */
module BridgeCompletion {
  import opened Wrappers
  import opened BridgeJson
  import U = BridgeUsage

  datatype Finish = Stopped | ToolCalling | Cut

  datatype Call = Call(callId: Word, item: Word, name: Word, args: Json, status: Word)

  datatype Block = TextBlock(text: Word, item: Word, status: Word) | ToolBlock(call: Call)

  datatype Completion = Completion(id: Word, model: Word, created: int, blocks: seq<Block>, finish: Finish, usage: Option<U.Usage>)

  predicate HasTools(bs: seq<Block>) {
    exists i :: 0 <= i < |bs| && bs[i].ToolBlock?
  }

  /** The identities read so far. */
  datatype Taken = Taken(calls: set<Word>, items: set<Word>)

  function With(s: set<Word>, w: Word): set<Word> {
    if w.Empty? then s else s + {w}
  }

  function TakenBy(bs: seq<Block>): Taken {
    if bs == [] then Taken({}, {})
    else
      var t, b := TakenBy(bs[..|bs| - 1]), bs[|bs| - 1];
      if b.TextBlock? then t.(items := With(t.items, b.item))
      else Taken(With(t.calls, b.call.callId), With(t.items, b.call.item))
  }

  predicate BlockValid(before: Taken, b: Block) {
    b.ToolBlock? ==>
      && !b.call.name.Empty? && b.call.args.Obj?
      && (b.call.callId.Empty? || b.call.callId !in before.calls)
      && (b.call.item.Empty? || b.call.item !in before.items)
  }

  predicate BlocksValid(bs: seq<Block>) {
    forall i :: 0 <= i < |bs| ==> BlockValid(TakenBy(bs[..i]), bs[i])
  }

  predicate Valid(c: Completion) {
    && BlocksValid(c.blocks)
    && (c.finish.ToolCalling? ==> HasTools(c.blocks))
    && (c.usage.Some? ==> U.Valid(c.usage.value))
  }

  // ----- identities -----

  /** newCompletionID, the clock, completionGeneratedCallID and completionGeneratedItemID. */
  datatype Generator = Generator(response: Word, now: int, call: (Word, nat) -> Word, item: (bool, Word, nat) -> Word)

  /** Every generated identity has a fixed prefix, so none is empty. */
  ghost predicate Generates(g: Generator) {
    && !g.response.Empty?
    && (forall id, i :: !g.call(id, i).Empty?)
    && (forall tool, id, i :: !g.item(tool, id, i).Empty?)
  }

  /** The call identities present. */
  function CallIds(bs: seq<Block>): set<Word> {
    set i | 0 <= i < |bs| && bs[i].ToolBlock? && !bs[i].call.callId.Empty? :: bs[i].call.callId
  }

  /** The blocks with the missing call identities among the first `n` generated; a generated one already used is refused. */
  function FillIds(g: Generator, id: Word, bs: seq<Block>, n: nat): (r: Option<seq<Block>>)
    requires n <= |bs|
    ensures r.Some? ==> |r.value| == |bs|
  {
    if n == 0 then Some(bs)
    else
      var done :- FillIds(g, id, bs, n - 1);
      var b := done[n - 1];
      if !b.ToolBlock? || !b.call.callId.Empty? then Some(done)
      else
        var callId := g.call(id, n - 1);
        var _ :- Need(callId !in CallIds(done));
        Some(done[n - 1 := ToolBlock(b.call.(callId := callId))])
  }

  function EnsureIdentities(g: Generator, c: Completion): Option<Completion> {
    var id := if c.id.Empty? then g.response else c.id;
    var created := if c.created == 0 then g.now else c.created;
    var blocks :- FillIds(g, id, c.blocks, |c.blocks|);
    Some(c.(id := id, created := created, blocks := blocks))
  }

  /** No two tool blocks share a call identity. */
  predicate DistinctCalls(bs: seq<Block>) {
    forall i, j :: 0 <= i < j < |bs| && bs[i].ToolBlock? && bs[j].ToolBlock? && !bs[i].call.callId.Empty? ==>
      bs[i].call.callId != bs[j].call.callId
  }

  /** The first `n` tool blocks have call identities. */
  predicate Identified(bs: seq<Block>, n: nat)
    requires n <= |bs|
  {
    forall i :: 0 <= i < n && bs[i].ToolBlock? ==> !bs[i].call.callId.Empty?
  }

  /** The same block up to a call identity that was missing. */
  predicate Completes(was: Block, now: Block) {
    now == was || (was.ToolBlock? && was.call.callId.Empty? && now.ToolBlock? && now.call == was.call.(callId := now.call.callId))
  }

  lemma {:induction false} FillKeeps(g: Generator, id: Word, bs: seq<Block>, n: nat)
    requires n <= |bs| && Generates(g) && DistinctCalls(bs)
    ensures var r := FillIds(g, id, bs, n);
            r.Some? ==> && DistinctCalls(r.value) && Identified(r.value, n)
                        && (forall i :: 0 <= i < |bs| ==> Completes(bs[i], r.value[i]))
                        && (forall i :: n <= i < |bs| ==> r.value[i] == bs[i])
  {
    if n > 0 {
      FillKeeps(g, id, bs, n - 1);
      var done := FillIds(g, id, bs, n - 1);
      if done.Some? && done.value[n - 1].ToolBlock? && done.value[n - 1].call.callId.Empty? {
        var callId := g.call(id, n - 1);
        if callId !in CallIds(done.value) {
          Unused(done.value, callId);
        }
      }
    }
  }

  lemma Unused(bs: seq<Block>, w: Word)
    requires w !in CallIds(bs) && !w.Empty?
    ensures forall i :: 0 <= i < |bs| && bs[i].ToolBlock? ==> bs[i].call.callId != w
  {
  }

  lemma {:induction false} TakenHas(bs: seq<Block>)
    ensures forall i :: 0 <= i < |bs| && bs[i].ToolBlock? && !bs[i].call.callId.Empty? ==> bs[i].call.callId in TakenBy(bs).calls
  {
    if bs != [] {
      TakenHas(bs[..|bs| - 1]);
    }
  }

  /** Validity forbids repeated call identities. */
  lemma ValidDistinct(bs: seq<Block>)
    requires BlocksValid(bs)
    ensures DistinctCalls(bs)
  {
    hide TakenBy;
    forall i, j | 0 <= i < j < |bs| && bs[i].ToolBlock? && bs[j].ToolBlock? && !bs[i].call.callId.Empty?
      ensures bs[i].call.callId != bs[j].call.callId
    {
      TakenHas(bs[..j]);
      assert bs[..j][i] == bs[i];
      assert BlockValid(TakenBy(bs[..j]), bs[j]);
    }
  }

  /**
   Filling in identities keeps everything else; every tool call then has an identity and no two share one.
   */
  lemma IdentitiesComplete(g: Generator, c: Completion)
    requires Generates(g) && Valid(c) && EnsureIdentities(g, c).Some?
    ensures var r := EnsureIdentities(g, c).value;
            && !r.id.Empty? && (c.id.Empty? || r.id == c.id)
            && r.model == c.model && r.finish == c.finish && r.usage == c.usage
            && |r.blocks| == |c.blocks| && (forall i :: 0 <= i < |c.blocks| ==> Completes(c.blocks[i], r.blocks[i]))
            && DistinctCalls(r.blocks) && Identified(r.blocks, |r.blocks|)
  {
    hide FillIds, TakenBy;
    ValidDistinct(c.blocks);
    FillKeeps(g, if c.id.Empty? then g.response else c.id, c.blocks, |c.blocks|);
  }

  method UsedIds(bs: seq<Block>) returns (used: set<Word>)
    ensures used == CallIds(bs)
  {
    hide CallIds;
    used := {};
    assert CallIds(bs[..0]) == {} by { NoIds(bs[..0]); }
    for i := 0 to |bs|
      invariant used == CallIds(bs[..i])
    {
      IdsSnoc(bs, i);
      if bs[i].ToolBlock? {
        used := With(used, bs[i].call.callId);
      }
    }
    assert bs[..|bs|] == bs;
  }

  lemma NoIds(bs: seq<Block>)
    requires bs == []
    ensures CallIds(bs) == {}
  {
  }

  lemma FillStep(g: Generator, id: Word, bs: seq<Block>, n: nat, done: seq<Block>)
    requires n < |bs| && FillIds(g, id, bs, n) == Some(done)
    ensures FillIds(g, id, bs, n + 1) ==
              (if !done[n].ToolBlock? || !done[n].call.callId.Empty? then Some(done)
               else if g.call(id, n) in CallIds(done) then None
               else Some(done[n := ToolBlock(done[n].call.(callId := g.call(id, n)))]))
  {
    hide CallIds;
  }

  /** The loop that fills call identities into the blocks in place. */
  method FillInPlace(g: Generator, id: Word, blocks: array<Block>) returns (ok: bool)
    modifies blocks
    ensures var r := FillIds(g, id, old(blocks[..]), blocks.Length);
            ok == r.Some? && (ok ==> blocks[..] == r.value)
  {
    hide FillIds, CallIds;
    ghost var was := blocks[..];
    var used := UsedIds(blocks[..]);
    assert FillIds(g, id, was, 0) == Some(was) by { NothingFilled(g, id, was); }
    for i := 0 to blocks.Length
      invariant FillIds(g, id, was, i) == Some(blocks[..]) && used == CallIds(blocks[..])
    {
      ghost var before := blocks[..];
      FillStep(g, id, was, i, before);
      var b := blocks[i];
      if b.ToolBlock? && b.call.callId.Empty? {
        var callId := g.call(id, i);
        if callId in used {
          FillStops(g, id, was, i + 1, blocks.Length);
          return false;
        }
        IdsUpdate(before, i, callId);
        blocks[i] := ToolBlock(b.call.(callId := callId));
        assert blocks[..] == before[i := ToolBlock(b.call.(callId := callId))];
        used := With(used, callId);
      }
    }
    return true;
  }

  lemma NothingFilled(g: Generator, id: Word, bs: seq<Block>)
    ensures FillIds(g, id, bs, 0) == Some(bs)
  {
  }

  lemma IdsSnoc(bs: seq<Block>, i: nat)
    requires i < |bs|
    ensures CallIds(bs[..i + 1]) == CallIds(bs[..i]) + (if bs[i].ToolBlock? then With({}, bs[i].call.callId) else {})
  {
    var a, b := bs[..i], bs[..i + 1];
    assert forall j :: 0 <= j < i ==> a[j] == b[j];
    assert b[i] == bs[i];
  }

  lemma IdsUpdate(bs: seq<Block>, i: nat, w: Word)
    requires i < |bs| && bs[i].ToolBlock? && bs[i].call.callId.Empty?
    ensures CallIds(bs[i := ToolBlock(bs[i].call.(callId := w))]) == With(CallIds(bs), w)
  {
    var r := bs[i := ToolBlock(bs[i].call.(callId := w))];
    assert forall j :: 0 <= j < |bs| && j != i ==> r[j] == bs[j];
    assert r[i].call.callId == w;
    forall x | x in CallIds(bs) ensures x in CallIds(r) {
      var j :| 0 <= j < |bs| && bs[j].ToolBlock? && !bs[j].call.callId.Empty? && bs[j].call.callId == x;
      assert r[j] == bs[j];
    }
  }

  lemma {:induction false} FillStops(g: Generator, id: Word, bs: seq<Block>, n: nat, m: nat)
    requires n <= m <= |bs| && FillIds(g, id, bs, n).None?
    ensures FillIds(g, id, bs, m).None?
    decreases m
  {
    if n < m {
      FillStops(g, id, bs, n, m - 1);
    }
  }

  // ----- what a contract carries -----

  /** A block without the item identity and status that only Responses has. */
  function Carried(b: Block): Block {
    if b.TextBlock? then TextBlock(b.text, Empty, Empty) else ToolBlock(b.call.(item := Empty, status := Empty))
  }

  function CarriedAll(bs: seq<Block>): (r: seq<Block>)
    ensures |r| == |bs| && forall i :: 0 <= i < |bs| ==> r[i] == Carried(bs[i])
  {
    seq(|bs|, i requires 0 <= i < |bs| => Carried(bs[i]))
  }

  /** Tool blocks with an identity, a name and arguments. */
  predicate Complete(bs: seq<Block>) {
    forall i :: 0 <= i < |bs| && bs[i].ToolBlock? ==> !bs[i].call.callId.Empty? && !bs[i].call.name.Empty? && bs[i].call.args.Obj?
  }

  /** A completion as it reaches the writers: valid, with its identities, its counters 64-bit. */
  ghost predicate Ready(c: Completion) {
    && Valid(c) && DistinctCalls(c.blocks) && Identified(c.blocks, |c.blocks|)
    && 0 <= c.created <= U.MAX && (c.usage.Some? ==> U.Fits(c.usage.value))
  }

  lemma ReadyFacts(c: Completion)
    requires Ready(c)
    ensures Complete(c.blocks) && 0 <= c.created <= U.MAX
    ensures c.usage.Some? ==> U.Fits(c.usage.value) && U.Valid(c.usage.value)
    ensures c.finish.ToolCalling? ==> HasTools(c.blocks)
  {
    hide TakenBy, U.Valid;
    forall i | 0 <= i < |c.blocks| && c.blocks[i].ToolBlock?
      ensures !c.blocks[i].call.callId.Empty? && !c.blocks[i].call.name.Empty? && c.blocks[i].call.args.Obj?
    {
      assert BlockValid(TakenBy(c.blocks[..i]), c.blocks[i]);
    }
  }

  lemma {:induction false} TakenOnly(bs: seq<Block>, w: Word)
    ensures w in TakenBy(bs).calls ==> exists i :: 0 <= i < |bs| && bs[i].ToolBlock? && !w.Empty? && bs[i].call.callId == w
    ensures w in TakenBy(bs).items ==>
              exists i :: 0 <= i < |bs| && !w.Empty? && (if bs[i].ToolBlock? then bs[i].call.item == w else bs[i].item == w)
  {
    if bs != [] {
      var init := bs[..|bs| - 1];
      TakenOnly(init, w);
      assert forall i :: 0 <= i < |init| ==> init[i] == bs[i];
      if w in TakenBy(init).calls {
        var i :| 0 <= i < |init| && init[i].ToolBlock? && !w.Empty? && init[i].call.callId == w;
        assert bs[i].ToolBlock?;
      }
      if w in TakenBy(init).items {
        var i :| 0 <= i < |init| && !w.Empty? && (if init[i].ToolBlock? then init[i].call.item == w else init[i].item == w);
        assert bs[i] == init[i];
      }
    }
  }

  /** Distinct call identities are what validity asks of blocks without item identities. */
  lemma CarriedValid(bs: seq<Block>)
    requires Complete(bs) && DistinctCalls(bs)
    ensures BlocksValid(CarriedAll(bs))
  {
    hide TakenBy;
    var r := CarriedAll(bs);
    forall i | 0 <= i < |r| ensures BlockValid(TakenBy(r[..i]), r[i]) {
      if r[i].ToolBlock? {
        var w := r[i].call.callId;
        TakenOnly(r[..i], w);
        assert r[i] == Carried(bs[i]);
        assert forall j :: 0 <= j < i ==> r[..i][j] == Carried(bs[j]);
      }
    }
  }

  lemma CarriedReady(c: Completion)
    requires Ready(c)
    ensures Valid(c.(blocks := CarriedAll(c.blocks)))
    ensures HasTools(CarriedAll(c.blocks)) <==> HasTools(c.blocks)
  {
    hide TakenBy, U.Valid, BlocksValid, DistinctCalls;
    ReadyFacts(c);
    CarriedValid(c.blocks);
    var r := CarriedAll(c.blocks);
    assert forall i :: 0 <= i < |r| ==> (r[i].ToolBlock? <==> c.blocks[i].ToolBlock?);
  }

  lemma CreatedIsFree(c: Completion)
    requires Valid(c)
    ensures Valid(c.(created := 0))
  {
  }

  /** No block carries an item status. */
  predicate Plain(bs: seq<Block>) {
    forall i :: 0 <= i < |bs| ==> (if bs[i].TextBlock? then bs[i].status.Empty? else bs[i].call.status.Empty?)
  }

  /** What every reader establishes. */
  ghost predicate Typed(c: Completion) {
    Valid(c) && 0 <= c.created <= U.MAX && (c.usage.Some? ==> U.Fits(c.usage.value))
  }

  /** The loop of validateCompletion over the blocks. */
  method CheckBlocks(bs: seq<Block>) returns (ok: bool)
    ensures ok == BlocksValid(bs)
  {
    var calls: set<Word>, items: set<Word> := {}, {};
    for i := 0 to |bs|
      invariant TakenBy(bs[..i]) == Taken(calls, items)
      invariant forall j :: 0 <= j < i ==> BlockValid(TakenBy(bs[..j]), bs[j])
    {
      assert bs[..i + 1][..i] == bs[..i];
      if !BlockValid(Taken(calls, items), bs[i]) {
        return false;
      }
      if bs[i].TextBlock? {
        items := With(items, bs[i].item);
      } else {
        calls, items := With(calls, bs[i].call.callId), With(items, bs[i].call.item);
      }
    }
    return true;
  }
}
