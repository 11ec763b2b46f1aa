/**
 Rewriting a provider response through a chain of plugins
 (internal/plugin/response_validate.go:16-162, internal/plugin/discovery.go:1894-1976).

 A plugin is any function from the response it is shown to a reply. The signature classes are
 those described at internal/plugin/response_validate.go:71-80. Byte strings are strings.
 */
module ResponseChain {
  import opened Wrappers

  datatype Usage = Usage(input: int, output: int, cacheRead: int, cacheWrite: int)

  /** What the provider or the host measured; no plugin may change any of it. */
  datatype Facts = Facts(model: string, id: string, finish: string, usage: Option<Usage>,
                         status: int, duration: int, extensions: string, meta: string)

  datatype Call = Call(id: string, name: string, arguments: string, signature: string)

  /** A block; `Nil` and a tool call without its message are what a malformed reply can hold. */
  datatype Block = Nil | Text(text: string) | Tool(call: Option<Call>) | Unknown

  datatype Response = Response(facts: Facts, message: Option<seq<Block>>)

  // ----- one replacement -----

  datatype SignatureClass = Unchanged | Cleared | Stale | Dropped | Forged

  /** How a token moved, given whether the name or arguments it covers changed. */
  function Classify(cur: string, rep: string, changed: bool): SignatureClass {
    if rep == cur then (if changed && cur != "" then Stale else Unchanged)
    else if rep == "" then (if changed then Cleared else Dropped)
    else Forged
  }

  predicate Changed(cur: Call, rep: Call) {
    rep.name != cur.name || rep.arguments != cur.arguments
  }

  predicate BlockValid(cur: Block, rep: Block) {
    match cur
    case Text(_) => rep.Text?
    case Tool(c) =>
      rep.Tool? && c.Some? && rep.call.Some? && rep.call.value.id == c.value.id
      && !(Classify(c.value.signature, rep.call.value.signature, Changed(c.value, rep.call.value)) in {Dropped, Forged})
    case _ => false
  }

  predicate Valid(cur: Response, rep: Response) {
    && cur.message.Some? == rep.message.Some?
    && rep.facts == cur.facts
    && (cur.message.Some? ==>
          && |rep.message.value| == |cur.message.value|
          && forall i :: 0 <= i < |cur.message.value| ==> BlockValid(cur.message.value[i], rep.message.value[i]))
  }

  /** A token left over content the provider did not sign is cleared. */
  function ClearedBlock(cur: Block, rep: Block): Block {
    if cur.Tool? && rep.Tool? && cur.call.Some? && rep.call.Some? && rep.call.value.signature == cur.call.value.signature
       && Changed(cur.call.value, rep.call.value)
    then Tool(Some(rep.call.value.(signature := "")))
    else rep
  }

  function ClearedBlocks(cur: seq<Block>, rep: seq<Block>): seq<Block>
    requires |cur| == |rep|
  {
    seq(|rep|, i requires 0 <= i < |rep| => ClearedBlock(cur[i], rep[i]))
  }

  /** The replacement as the next plugin sees it. */
  function Accepted(cur: Response, rep: Response): Response
    requires Valid(cur, rep)
  {
    if cur.message.None? then rep
    else rep.(message := Some(ClearedBlocks(cur.message.value, rep.message.value)))
  }

  // ----- the chain -----

  /** A trap or an undecodable result, nothing to change, or a replacement. */
  datatype Reply = Failed | Pass | Replace(response: Response)

  datatype Plugin = Plugin(blocks: bool, reply: Response -> Reply)

  datatype Outcome = Blocked | Unmodified | Modified(response: Response)

  /** One plugin's turn on the current response; `None` blocks the response. */
  function Turn(p: Plugin, cur: Response, mutable: bool): Option<Outcome> {
    match p.reply(cur)
    case Failed => if p.blocks then None else Some(Unmodified)
    case Pass => Some(Unmodified)
    case Replace(rep) =>
      if !mutable then Some(Unmodified)
      else if Valid(cur, rep) then Some(Modified(Accepted(cur, rep)))
      else if p.blocks then None else Some(Unmodified)
  }

  function Current(resp: Response, o: Outcome): Response {
    if o.Modified? then o.response else resp
  }

  function Chain(plugins: seq<Plugin>, resp: Response, mutable: bool): Outcome
    decreases |plugins|
  {
    if plugins == [] then Unmodified
    else
      var before := Chain(plugins[..|plugins| - 1], resp, mutable);
      if before.Blocked? then Blocked
      else
        var t := Turn(plugins[|plugins| - 1], Current(resp, before), mutable);
        if t.None? then Blocked else if t.value.Modified? then t.value else before
  }

  // ----- what a turn does to the chain -----

  /** What plugin `n` is shown. */
  function Shown(plugins: seq<Plugin>, resp: Response, mutable: bool, n: nat): Response
    requires n <= |plugins|
  {
    Current(resp, Chain(plugins[..n], resp, mutable))
  }

  /** The plugin's reply to what it is shown fails: it traps, or on a mutable path it replaces what it may not. */
  predicate Misbehaves(p: Plugin, shown: Response, mutable: bool) {
    p.reply(shown).Failed? || (mutable && p.reply(shown).Replace? && !Valid(shown, p.reply(shown).response))
  }

  lemma ChainSnoc(plugins: seq<Plugin>, resp: Response, mutable: bool, n: nat)
    requires n < |plugins|
    ensures var before := Chain(plugins[..n], resp, mutable);
            Chain(plugins[..n + 1], resp, mutable) ==
              if before.Blocked? then Blocked
              else
                var t := Turn(plugins[n], Current(resp, before), mutable);
                if t.None? then Blocked else if t.value.Modified? then t.value else before
  {
    hide Turn;
    assert plugins[..n + 1][..n] == plugins[..n] && plugins[..n + 1][n] == plugins[n];
  }

  /** The chain blocks exactly when some blocking plugin fails or replaces what it may not on what it is shown. */
  lemma {:induction false} BlocksExactly(plugins: seq<Plugin>, resp: Response, mutable: bool, n: nat)
    requires n <= |plugins|
    ensures Chain(plugins[..n], resp, mutable).Blocked? <==>
              exists k: nat :: k < n && plugins[k].blocks && Misbehaves(plugins[k], Shown(plugins, resp, mutable, k), mutable)
    decreases n
  {
    hide Valid, Accepted, Chain;
    if n == 0 {
      EmptyChain(plugins, resp, mutable);
    } else {
      BlocksExactly(plugins, resp, mutable, n - 1);
      ChainSnoc(plugins, resp, mutable, n - 1);
    }
  }

  lemma EmptyChain(plugins: seq<Plugin>, resp: Response, mutable: bool)
    ensures Chain(plugins[..0], resp, mutable) == Unmodified
  {
  }

  /** The block shown after `rep` replaced `was`: `rep`, without a token it left over a name or arguments it changed. */
  predicate TakenBlock(was: Block, rep: Block, now: Block) {
    if was.Tool? && was.call.Some? && rep.Tool? && rep.call.Some? then
      && now.Tool? && now.call.Some? && now.call.value.id == rep.call.value.id
      && now.call.value.name == rep.call.value.name && now.call.value.arguments == rep.call.value.arguments
      && now.call.value.signature ==
           (if rep.call.value.name == was.call.value.name && rep.call.value.arguments == was.call.value.arguments
            then rep.call.value.signature else "")
    else now == rep
  }

  predicate Taken(was: Response, rep: Response, now: Response) {
    && now.facts == rep.facts && was.message.Some? == rep.message.Some? == now.message.Some?
    && (now.message.Some? ==>
          && |was.message.value| == |rep.message.value| == |now.message.value|
          && forall i :: 0 <= i < |now.message.value| ==>
               TakenBlock(was.message.value[i], rep.message.value[i], now.message.value[i]))
  }

  lemma AcceptedIsTaken(cur: Response, rep: Response)
    requires Valid(cur, rep)
    ensures Taken(cur, rep, Accepted(cur, rep))
  {
    hide BlockValid, ClearedBlock, TakenBlock;
    if cur.message.Some? {
      forall i | 0 <= i < |cur.message.value|
        ensures TakenBlock(cur.message.value[i], rep.message.value[i], Accepted(cur, rep).message.value[i])
      {
        BlockTaken(cur.message.value[i], rep.message.value[i]);
      }
    }
  }

  lemma BlockTaken(cur: Block, rep: Block)
    requires BlockValid(cur, rep)
    ensures TakenBlock(cur, rep, ClearedBlock(cur, rep))
  {
  }

  /** On a mutable path the plugin makes a permitted replacement of what it is shown. */
  predicate Replaces(p: Plugin, shown: Response, mutable: bool) {
    mutable && p.reply(shown).Replace? && Valid(shown, p.reply(shown).response)
  }

  /**
   Until the chain blocks, a permitted replacement on a mutable path, its stale tokens cleared,
   is what the next plugin is shown; after any other reply the next plugin is shown the same.
   */
  lemma NextIsShown(plugins: seq<Plugin>, resp: Response, mutable: bool, n: nat)
    requires n < |plugins| && !Chain(plugins[..n + 1], resp, mutable).Blocked?
    ensures var was, now := Shown(plugins, resp, mutable, n), Shown(plugins, resp, mutable, n + 1);
            if Replaces(plugins[n], was, mutable) then Taken(was, plugins[n].reply(was).response, now) else now == was
  {
    hide Valid, Accepted, Chain, Taken;
    ChainSnoc(plugins, resp, mutable, n);
    var was := Shown(plugins, resp, mutable, n);
    if Replaces(plugins[n], was, mutable) {
      AcceptedIsTaken(was, plugins[n].reply(was).response);
    }
  }

  /** A chain that does not block ends with the last thing shown, modified exactly when some permitted replacement was made. */
  lemma {:induction false} EndsExactly(plugins: seq<Plugin>, resp: Response, mutable: bool, n: nat)
    requires n <= |plugins| && !Chain(plugins[..n], resp, mutable).Blocked?
    ensures Chain(plugins[..n], resp, mutable) ==
              if exists k: nat :: k < n && Replaces(plugins[k], Shown(plugins, resp, mutable, k), mutable)
              then Modified(Shown(plugins, resp, mutable, n)) else Unmodified
    decreases n
  {
    hide Valid, Accepted, Chain;
    if n == 0 {
      EmptyChain(plugins, resp, mutable);
    } else {
      ChainSnoc(plugins, resp, mutable, n - 1);
      EndsExactly(plugins, resp, mutable, n - 1);
      var was := Shown(plugins, resp, mutable, n - 1);
      assert Turn(plugins[n - 1], was, mutable).value.Modified? <==> Replaces(plugins[n - 1], was, mutable);
    }
  }

  // ----- provenance -----

  /** The block keeps its arm and identity, and a token only over what the provider signed with it. */
  predicate Descends(orig: Block, b: Block) {
    match orig
    case Text(_) => b.Text?
    case Tool(c) =>
      c.Some? && b.Tool? && b.call.Some? && b.call.value.id == c.value.id
      && (b.call.value.signature != "" ==>
            && b.call.value.signature == c.value.signature
            && b.call.value.name == c.value.name && b.call.value.arguments == c.value.arguments)
    case _ => b == orig
  }

  predicate Faithful(orig: Response, r: Response) {
    && r.facts == orig.facts && r.message.Some? == orig.message.Some?
    && (orig.message.Some? ==>
          && |r.message.value| == |orig.message.value|
          && forall i :: 0 <= i < |orig.message.value| ==> Descends(orig.message.value[i], r.message.value[i]))
  }

  /** Every block is one the host understands. */
  predicate WellFormed(r: Response) {
    r.message.Some? ==> forall i :: 0 <= i < |r.message.value| ==>
      r.message.value[i].Text? || (r.message.value[i].Tool? && r.message.value[i].call.Some?)
  }

  lemma BlockDescends(orig: Block, cur: Block, rep: Block)
    requires Descends(orig, cur) && BlockValid(cur, rep)
    ensures Descends(orig, ClearedBlock(cur, rep))
  {
  }

  lemma AcceptedFaithful(orig: Response, cur: Response, rep: Response)
    requires Faithful(orig, cur) && Valid(cur, rep)
    ensures Faithful(orig, Accepted(cur, rep))
  {
    hide Descends, BlockValid, ClearedBlock;
    if orig.message.Some? {
      forall i | 0 <= i < |orig.message.value|
        ensures Descends(orig.message.value[i], ClearedBlocks(cur.message.value, rep.message.value)[i])
      {
        BlockDescends(orig.message.value[i], cur.message.value[i], rep.message.value[i]);
      }
    }
  }

  lemma SelfFaithful(r: Response)
    requires WellFormed(r)
    ensures Faithful(r, r)
  {
  }

  /** A malformed response is never replaced, so what is replaced is well formed. */
  lemma ReplacedIsWellFormed(cur: Response, rep: Response)
    requires Valid(cur, rep)
    ensures WellFormed(cur) && WellFormed(Accepted(cur, rep))
  {
  }

  /**
   Whatever the plugins reply, in any number and order, the response that leaves the chain has
   the provider's facts, blocks, arms and call identities, and any token on it is the provider's
   own over the provider's own name and arguments.
   */
  lemma {:induction false} ChainIsFaithful(plugins: seq<Plugin>, resp: Response, mutable: bool)
    ensures var o := Chain(plugins, resp, mutable);
            o.Modified? ==> mutable && WellFormed(resp) && Faithful(resp, o.response)
    decreases |plugins|
  {
    hide Valid, Accepted, Faithful, WellFormed;
    if plugins != [] {
      var init, p := plugins[..|plugins| - 1], plugins[|plugins| - 1];
      ChainIsFaithful(init, resp, mutable);
      var before := Chain(init, resp, mutable);
      if !before.Blocked? {
        var cur := Current(resp, before);
        var t := Turn(p, cur, mutable);
        if t.Some? && t.value.Modified? {
          var rep := p.reply(cur).response;
          ReplacedIsWellFormed(cur, rep);
          if before.Unmodified? {
            SelfFaithful(resp);
          }
          AcceptedFaithful(resp, cur, rep);
        }
      }
    }
  }

  // ----- a cleared token stays cleared -----

  predicate Unsigned(r: Response, i: nat) {
    r.message.Some? && i < |r.message.value| && r.message.value[i].Tool? && r.message.value[i].call.Some?
    && r.message.value[i].call.value.signature == ""
  }

  lemma AcceptedStaysUnsigned(cur: Response, rep: Response, i: nat)
    requires Valid(cur, rep) && Unsigned(cur, i)
    ensures Unsigned(Accepted(cur, rep), i)
  {
    assert BlockValid(cur.message.value[i], rep.message.value[i]);
  }

  /** Changing what a token covers clears it, whatever the plugin did with the token. */
  lemma EditClears(cur: Response, rep: Response, i: nat)
    requires Valid(cur, rep) && cur.message.Some? && i < |cur.message.value| && cur.message.value[i].Tool?
    requires cur.message.value[i].call.Some? && rep.message.value[i].Tool? && rep.message.value[i].call.Some?
    requires Changed(cur.message.value[i].call.value, rep.message.value[i].call.value)
    ensures Unsigned(Accepted(cur, rep), i)
  {
    assert BlockValid(cur.message.value[i], rep.message.value[i]);
  }

  /** The chain from a later response on: a position once unsigned is never signed again, even when its content is edited back. */
  lemma {:induction false} UnsignedStays(plugins: seq<Plugin>, n: nat, resp: Response, mutable: bool, i: nat)
    requires n <= |plugins| && Unsigned(Current(resp, Chain(plugins[..n], resp, mutable)), i)
    requires !Chain(plugins, resp, mutable).Blocked?
    ensures Unsigned(Current(resp, Chain(plugins, resp, mutable)), i)
    decreases |plugins|
  {
    hide Valid, Accepted, Unsigned;
    if n == |plugins| {
      assert plugins[..n] == plugins;
    } else {
      var m := |plugins| - 1;
      var init, p := plugins[..m], plugins[m];
      assert init[..n] == plugins[..n];
      UnsignedStays(init, n, resp, mutable, i);
      var cur := Current(resp, Chain(init, resp, mutable));
      var t := Turn(p, cur, mutable);
      if t.Some? && t.value.Modified? {
        AcceptedStaysUnsigned(cur, p.reply(cur).response, i);
      }
    }
  }

  // ----- what is accepted -----

  /** An edit a plugin is allowed: new text, or a new name or arguments with the token kept or cleared. */
  predicate AllowedEdit(cur: Block, rep: Block) {
    || (cur.Text? && rep.Text?)
    || (cur.Tool? && rep.Tool? && cur.call.Some? && rep.call.Some? && rep.call.value.id == cur.call.value.id
        && (rep.call.value.signature == cur.call.value.signature
            || (rep.call.value.signature == "" && Changed(cur.call.value, rep.call.value))))
  }

  /** The replacements accepted are exactly the allowed edits that keep the facts and the shape. */
  lemma AcceptsExactlyAllowedEdits(cur: Response, rep: Response)
    ensures Valid(cur, rep) <==>
              && rep.facts == cur.facts && cur.message.Some? == rep.message.Some?
              && (cur.message.Some? ==>
                    && |rep.message.value| == |cur.message.value|
                    && forall i :: 0 <= i < |cur.message.value| ==> AllowedEdit(cur.message.value[i], rep.message.value[i]))
  {
    hide BlockValid, AllowedEdit;
    if cur.message.Some? && rep.message.Some? && |rep.message.value| == |cur.message.value| {
      forall i | 0 <= i < |cur.message.value|
        ensures BlockValid(cur.message.value[i], rep.message.value[i]) <==> AllowedEdit(cur.message.value[i], rep.message.value[i])
      {
        BlockAccepts(cur.message.value[i], rep.message.value[i]);
      }
    }
  }

  lemma BlockAccepts(cur: Block, rep: Block)
    ensures BlockValid(cur, rep) <==> AllowedEdit(cur, rep)
  {
  }

  // ----- the procedures -----

  method ValidateReplacement(cur: Response, rep: Response) returns (ok: bool)
    ensures ok == Valid(cur, rep)
  {
    if rep.message.None? && cur.message.Some? {
      return false;
    }
    if rep.message.Some? && cur.message.None? {
      return false;
    }
    if rep.facts != cur.facts {
      return false;
    }
    if cur.message.None? {
      return true;
    }
    var was, now := cur.message.value, rep.message.value;
    if |now| != |was| {
      return false;
    }
    for i := 0 to |was|
      invariant forall j :: 0 <= j < i ==> BlockValid(was[j], now[j])
    {
      if !BlockValid(was[i], now[i]) {
        return false;
      }
    }
    return true;
  }

  /** Clears stale tokens in the replacement's own blocks. */
  method ClearStale(cur: seq<Block>, rep: array<Block>)
    requires rep.Length == |cur|
    modifies rep
    ensures rep[..] == ClearedBlocks(cur, old(rep[..]))
  {
    for i := 0 to rep.Length
      invariant forall j :: 0 <= j < i ==> rep[j] == ClearedBlock(cur[j], old(rep[j]))
      invariant forall j :: i <= j < rep.Length ==> rep[j] == old(rep[j])
    {
      if cur[i].Tool? && rep[i].Tool? && cur[i].call.Some? && rep[i].call.Some? && rep[i].call.value.signature != "" {
        var was, now := cur[i].call.value, rep[i].call.value;
        if now.signature == was.signature && Changed(was, now) {
          rep[i] := Tool(Some(now.(signature := "")));
        }
      }
    }
    assert rep[..] == ClearedBlocks(cur, old(rep[..]));
  }

  method Normalize(cur: Response, rep: Response) returns (r: Response)
    requires Valid(cur, rep)
    ensures r == Accepted(cur, rep)
  {
    if cur.message.None? {
      return rep;
    }
    var blocks := rep.message.value;
    var own := new Block[|blocks|](i requires 0 <= i < |blocks| => blocks[i]);
    assert own[..] == blocks;
    ClearStale(cur.message.value, own);
    return rep.(message := Some(own[..]));
  }

  method RunAfterResponse(plugins: seq<Plugin>, resp: Response, mutable: bool) returns (outcome: Outcome)
    ensures outcome == Chain(plugins, resp, mutable)
  {
    hide Valid, Accepted;
    var current, modified := resp, false;
    var i := 0;
    while i < |plugins|
      invariant i <= |plugins| && modified == Chain(plugins[..i], resp, mutable).Modified?
      invariant !Chain(plugins[..i], resp, mutable).Blocked? && current == Current(resp, Chain(plugins[..i], resp, mutable))
      invariant forall n :: 0 <= n <= i ==> !Chain(plugins[..n], resp, mutable).Blocked?
    {
      assert plugins[..i + 1][..i] == plugins[..i];
      var p := plugins[i];
      var reply := p.reply(current);
      var failed := reply.Failed?;
      if reply.Replace? && mutable {
        var ok := ValidateReplacement(current, reply.response);
        failed := !ok;
        if ok {
          current := Normalize(current, reply.response);
          modified := true;
        }
      }
      if failed && p.blocks {
        BlockedStays(plugins, i + 1, resp, mutable);
        return Blocked;
      }
      i := i + 1;
    }
    assert plugins[..i] == plugins;
    return if modified then Modified(current) else Unmodified;
  }

  lemma {:induction false} BlockedStays(plugins: seq<Plugin>, n: nat, resp: Response, mutable: bool)
    requires n <= |plugins| && Chain(plugins[..n], resp, mutable).Blocked?
    ensures Chain(plugins, resp, mutable).Blocked?
    decreases |plugins|
  {
    if n == |plugins| {
      assert plugins[..n] == plugins;
    } else {
      var init := plugins[..|plugins| - 1];
      assert init[..n] == plugins[..n];
      BlockedStays(init, n, resp, mutable);
    }
  }
}
