/**
 Regrouping a conversation for another protocol (internal/bridge/request.go:191-333).

 A block has exactly one arm. Whether a tool identity is legal on the destination, and how media is
 converted, are parameters.
 */
module MessageProjection {
  import opened Wrappers
  import U = BridgeUsage

  type Protocol = U.Protocol

  datatype Role = System | User | Assistant | Tool | Developer | Other(name: string)

  datatype Content = Content(text: string, breakpoint: bool, unknown: bool)

  /** `bound` says that a signature or other provider state is attached. */
  datatype Block =
    | Text(text: string, bound: bool)
    | ToolUse(id: string, name: string, arguments: string, bound: bool, isFunction: bool)
    | ToolResult(id: string, name: string, content: seq<Content>, bound: bool, isFunction: bool)
    | Media(media: string)
    | CacheBreakpoint
    | Opaque

  datatype Message = Message(role: Role, blocks: seq<Block>)

  datatype Host = Host(identity: (Protocol, string, string) -> bool, media: (string, Protocol, Protocol) -> Option<string>)

  predicate OpenAI(to: Protocol) {
    to.OpenAIChat? || to.OpenAIResponses?
  }

  predicate RoleOk(to: Protocol, role: Role) {
    match role
    case Developer => OpenAI(to)
    case Other(_) => false
    case _ => true
  }

  // ----- one block -----

  /** The calls seen, with their names, and the calls already answered. */
  datatype Book = Book(calls: map<string, string>, answered: set<string>)

  const NoCalls: Book := Book(map[], {})

  function TextOf(content: seq<Content>): string {
    if content == [] then "" else TextOf(content[..|content| - 1]) + content[|content| - 1].text
  }

  predicate PlainContent(content: seq<Content>) {
    forall i :: 0 <= i < |content| ==> !content[i].breakpoint && !content[i].unknown
  }

  function ProjectedResult(to: Protocol, r: Block, name: string): Block
    requires r.ToolResult?
  {
    ToolResult(r.id,
               if U.IsGemini(to) then name else if to.Anthropic? then "" else r.name,
               if U.IsGemini(to) then [Content(TextOf(r.content), false, false)] else r.content,
               r.bound, r.isFunction)
  }

  function Rewrite(host: Host, from: Protocol, to: Protocol, role: Role, book: Book, b: Block): Option<(Block, Book)> {
    match b
    case Text(_, bound) => if bound then None else Some((b, book))
    case ToolUse(id, name, _, bound, isFunction) =>
      if role != Assistant || name == "" || id == "" || id in book.calls || bound || !isFunction || !host.identity(to, name, id) then None
      else Some((b, book.(calls := book.calls[id := name])))
    case ToolResult(id, name, content, bound, isFunction) =>
      if bound || !isFunction || id !in book.calls || id in book.answered || (name != "" && name != book.calls[id])
         || !PlainContent(content) then None
      else Some((ProjectedResult(to, b, book.calls[id]), book.(answered := book.answered + {id})))
    case Media(m) =>
      var converted := host.media(m, from, to);
      if converted.None? then None else Some((Media(converted.value), book))
    case CacheBreakpoint => None
    case Opaque => None
  }

  function RewriteBlocks(host: Host, from: Protocol, to: Protocol, role: Role, book: Book, bs: seq<Block>): (r: Option<(seq<Block>, Book)>)
    ensures r.Some? ==> |r.value.0| == |bs|
  {
    if bs == [] then Some(([], book))
    else
      var front := RewriteBlocks(host, from, to, role, book, bs[..|bs| - 1]);
      if front.None? then None
      else
        var last := Rewrite(host, from, to, role, front.value.1, bs[|bs| - 1]);
        if last.None? then None else Some((front.value.0 + [last.value.0], last.value.1))
  }

  // ----- placing the blocks -----

  /** Each result alone in a tool message, the blocks between results together. */
  function SplitLoop(role: Role, done: seq<Message>, pending: seq<Block>, bs: seq<Block>): seq<Message>
    decreases |bs|
  {
    if bs == [] then Flush(role, done, pending)
    else if bs[0].ToolResult? then SplitLoop(role, Flush(role, done, pending) + [Message(Tool, [bs[0]])], [], bs[1..])
    else SplitLoop(role, done, pending + [bs[0]], bs[1..])
  }

  function Flush(role: Role, done: seq<Message>, pending: seq<Block>): seq<Message> {
    if pending == [] then done else done + [Message(role, pending)]
  }

  /** A block onto the last message if it has the role, or a new message. */
  function Push(ms: seq<Message>, role: Role, b: Block): seq<Message> {
    if ms != [] && ms[|ms| - 1].role == role
    then ms[|ms| - 1 := ms[|ms| - 1].(blocks := ms[|ms| - 1].blocks + [b])]
    else ms + [Message(role, [b])]
  }

  function SideRole(role: Role, b: Block): Role {
    if b.ToolResult? || role == Tool then User else role
  }

  function PushAll(ms: seq<Message>, role: Role, bs: seq<Block>): seq<Message> {
    if bs == [] then ms
    else Push(PushAll(ms, role, bs[..|bs| - 1]), SideRole(role, bs[|bs| - 1]), bs[|bs| - 1])
  }

  datatype State = State(book: Book, messages: seq<Message>, system: seq<Block>, talking: bool)

  function Add(host: Host, from: Protocol, to: Protocol, s: State, m: Message): Option<State> {
    if !RoleOk(to, m.role) || (m.role.System? && s.talking && !OpenAI(to)) then None
    else
      var bs := RewriteBlocks(host, from, to, m.role, s.book, m.blocks);
      if bs.None? then None
      else
        var t := s.(book := bs.value.1, talking := s.talking || !m.role.System?);
        if m.role.System? && !OpenAI(to) then Some(t.(system := s.system + bs.value.0))
        else if OpenAI(to) then Some(t.(messages := SplitLoop(m.role, s.messages, [], bs.value.0)))
        else Some(t.(messages := PushAll(s.messages, m.role, bs.value.0)))
  }

  const Begin: State := State(NoCalls, [], [], false)

  function AddAll(host: Host, from: Protocol, to: Protocol, ms: seq<Message>): Option<State> {
    if ms == [] then Some(Begin)
    else
      var s := AddAll(host, from, to, ms[..|ms| - 1]);
      if s.None? then None else Add(host, from, to, s.value, ms[|ms| - 1])
  }

  function Assembled(s: State): seq<Message> {
    if s.system == [] then s.messages else [Message(System, s.system)] + s.messages
  }

  function Project(host: Host, from: Protocol, to: Protocol, ms: seq<Message>): Option<seq<Message>> {
    var s := AddAll(host, from, to, ms);
    if s.None? then None else Some(Assembled(s.value))
  }

  // ----- the conversation, flattened -----

  type Turn = (Role, Block)

  function Under(role: Role, bs: seq<Block>): (ts: seq<Turn>)
    ensures |ts| == |bs| && forall i :: 0 <= i < |bs| ==> ts[i] == (role, bs[i])
  {
    seq(|bs|, i requires 0 <= i < |bs| => (role, bs[i]))
  }

  function Turns(ms: seq<Message>): seq<Turn> {
    if ms == [] then [] else Turns(ms[..|ms| - 1]) + Under(ms[|ms| - 1].role, ms[|ms| - 1].blocks)
  }

  /** The role a block has on the destination. */
  function RoleIn(to: Protocol, role: Role, b: Block): Role {
    if OpenAI(to) then (if b.ToolResult? then Tool else role)
    else if role.System? then System else SideRole(role, b)
  }

  /** Every turn of a conversation rewritten in place, with the calls seen so far. */
  function RewriteTurns(host: Host, from: Protocol, to: Protocol, ts: seq<Turn>): (r: Option<(seq<Turn>, Book)>)
    ensures r.Some? ==> |r.value.0| == |ts|
  {
    if ts == [] then Some(([], NoCalls))
    else
      var front := RewriteTurns(host, from, to, ts[..|ts| - 1]);
      var (role, b) := ts[|ts| - 1];
      if front.None? then None
      else
        var last := Rewrite(host, from, to, role, front.value.1, b);
        if last.None? then None
        else Some((front.value.0 + [(RoleIn(to, role, b), last.value.0)], last.value.1))
  }

  lemma TurnsSnoc(ms: seq<Message>, m: Message)
    ensures Turns(ms + [m]) == Turns(ms) + Under(m.role, m.blocks)
  {
    assert (ms + [m])[..|ms|] == ms;
  }

  lemma {:induction false} TurnsConcat(a: seq<Message>, b: seq<Message>)
    ensures Turns(a + b) == Turns(a) + Turns(b)
  {
    hide Turns, Under;
    if b == [] {
      assert a + b == a;
      NoTurns();
      assert Turns(a) + [] == Turns(a);
    } else {
      var init, last := b[..|b| - 1], b[|b| - 1];
      TurnsConcat(a, init);
      assert a + b == (a + init) + [last] && b == init + [last];
      TurnsSnoc(a + init, last);
      TurnsSnoc(init, last);
      var x, y, z := Turns(a), Turns(init), Under(last.role, last.blocks);
      assert x + y + z == x + (y + z);
    }
  }

  lemma UnderConcat(role: Role, a: seq<Block>, b: seq<Block>)
    ensures Under(role, a + b) == Under(role, a) + Under(role, b)
  {
  }

  /** The turns a message's rewritten blocks become. */
  function Placed(to: Protocol, role: Role, bs: seq<Block>): (ts: seq<Turn>)
    ensures |ts| == |bs| && forall i :: 0 <= i < |bs| ==> ts[i] == (RoleIn(to, role, bs[i]), bs[i])
  {
    seq(|bs|, i requires 0 <= i < |bs| => (RoleIn(to, role, bs[i]), bs[i]))
  }

  lemma FlushTurns(role: Role, done: seq<Message>, pending: seq<Block>)
    ensures Turns(Flush(role, done, pending)) == Turns(done) + Under(role, pending)
  {
    if pending != [] {
      TurnsSnoc(done, Message(role, pending));
    }
  }

  lemma PlacedHead(to: Protocol, role: Role, bs: seq<Block>)
    requires OpenAI(to) && bs != []
    ensures Placed(to, role, bs) == Under(if bs[0].ToolResult? then Tool else role, [bs[0]]) + Placed(to, role, bs[1..])
  {
  }

  lemma Assoc(a: seq<Turn>, b: seq<Turn>, c: seq<Turn>, d: seq<Turn>)
    ensures a + b + (c + d) == (a + b + c) + d
    ensures a + b + (c + d) == a + (b + c) + d
  {
  }

  lemma {:induction false} SplitTurns(to: Protocol, role: Role, done: seq<Message>, pending: seq<Block>, bs: seq<Block>)
    requires OpenAI(to)
    ensures Turns(SplitLoop(role, done, pending, bs)) == Turns(done) + Under(role, pending) + Placed(to, role, bs)
    decreases |bs|
  {
    hide Turns, Flush, Under, Placed;
    FlushTurns(role, done, pending);
    if bs == [] {
      assert Turns(done) + Under(role, pending) + [] == Turns(done) + Under(role, pending);
    } else {
      var b, rest := bs[0], bs[1..];
      PlacedHead(to, role, bs);
      var was := Turns(done);
      if b.ToolResult? {
        var flushed := Flush(role, done, pending);
        TurnsSnoc(flushed, Message(Tool, [b]));
        SplitTurns(to, role, flushed + [Message(Tool, [b])], [], rest);
        Assoc(was, Under(role, pending), Under(Tool, [b]), Placed(to, role, rest));
        var shown := was + Under(role, pending) + Under(Tool, [b]);
        assert Under(role, []) == [] && shown + [] == shown;
      } else {
        SplitTurns(to, role, done, pending + [b], rest);
        UnderConcat(role, pending, [b]);
        Assoc(was, Under(role, pending), Under(role, [b]), Placed(to, role, rest));
      }
    }
  }

  lemma PushTurns(ms: seq<Message>, role: Role, b: Block)
    ensures Turns(Push(ms, role, b)) == Turns(ms) + [(role, b)]
  {
    hide Turns;
    if ms != [] && ms[|ms| - 1].role == role {
      var init, last := ms[..|ms| - 1], ms[|ms| - 1];
      assert ms == init + [last];
      assert Push(ms, role, b) == init + [last.(blocks := last.blocks + [b])];
      TurnsSnoc(init, last);
      TurnsSnoc(init, last.(blocks := last.blocks + [b]));
      UnderConcat(role, last.blocks, [b]);
      assert Under(role, [b]) == [(role, b)];
    } else {
      TurnsSnoc(ms, Message(role, [b]));
      assert Under(role, [b]) == [(role, b)];
    }
  }

  lemma {:induction false} PushAllTurns(to: Protocol, ms: seq<Message>, role: Role, bs: seq<Block>)
    requires !OpenAI(to) && !role.System?
    ensures Turns(PushAll(ms, role, bs)) == Turns(ms) + Placed(to, role, bs)
  {
    hide Turns, Push;
    if bs != [] {
      var init, last := bs[..|bs| - 1], bs[|bs| - 1];
      PushAllTurns(to, ms, role, init);
      PushTurns(PushAll(ms, role, init), SideRole(role, last), last);
      assert Placed(to, role, bs) == Placed(to, role, init) + [(SideRole(role, last), last)];
    }
  }

  // ----- nothing dropped, duplicated or moved -----

  lemma RewriteKeepsArm(host: Host, from: Protocol, to: Protocol, role: Role, book: Book, b: Block)
    requires Rewrite(host, from, to, role, book, b).Some?
    ensures RoleIn(to, role, Rewrite(host, from, to, role, book, b).value.0) == RoleIn(to, role, b)
  {
  }

  lemma RewriteSnoc(host: Host, from: Protocol, to: Protocol, ts: seq<Turn>, t: Turn)
    ensures RewriteTurns(host, from, to, ts + [t]) ==
              (var front := RewriteTurns(host, from, to, ts);
               if front.None? then None
               else
                 var last := Rewrite(host, from, to, t.0, front.value.1, t.1);
                 if last.None? then None else Some((front.value.0 + [(RoleIn(to, t.0, t.1), last.value.0)], last.value.1)))
  {
    hide Rewrite;
    assert (ts + [t])[..|ts|] == ts;
  }

  /** Rewriting a message's blocks is rewriting its turns. */
  lemma {:induction false} RewriteMessage(host: Host, from: Protocol, to: Protocol, ts: seq<Turn>, role: Role, bs: seq<Block>)
    requires RewriteTurns(host, from, to, ts).Some?
    ensures var was := RewriteTurns(host, from, to, ts).value;
            var now, own := RewriteTurns(host, from, to, ts + Under(role, bs)), RewriteBlocks(host, from, to, role, was.1, bs);
            && now.Some? == own.Some?
            && (own.Some? ==> now.value.0 == was.0 + Placed(to, role, own.value.0) && now.value.1 == own.value.1)
  {
    hide Rewrite, RewriteTurns;
    if bs == [] {
      assert ts + Under(role, bs) == ts;
    } else {
      var init, last := bs[..|bs| - 1], bs[|bs| - 1];
      RewriteMessage(host, from, to, ts, role, init);
      assert ts + Under(role, bs) == (ts + Under(role, init)) + [(role, last)];
      RewriteSnoc(host, from, to, ts + Under(role, init), (role, last));
      var was := RewriteTurns(host, from, to, ts).value;
      var own := RewriteBlocks(host, from, to, role, was.1, init);
      if own.Some? && Rewrite(host, from, to, role, own.value.1, last).Some? {
        RewriteKeepsArm(host, from, to, role, own.value.1, last);
        var b := Rewrite(host, from, to, role, own.value.1, last).value.0;
        assert Placed(to, role, own.value.0 + [b]) == Placed(to, role, own.value.0) + [(RoleIn(to, role, b), b)];
      }
    }
  }

  /** What the state holds: the turns so far, the preamble first. */
  ghost predicate Holds(host: Host, from: Protocol, to: Protocol, s: State, ms: seq<Message>) {
    && RewriteTurns(host, from, to, Turns(ms)) == Some((Under(System, s.system) + Turns(s.messages), s.book))
    && (OpenAI(to) ==> s.system == [])
    && (!OpenAI(to) && !s.talking ==> s.messages == [])
    && (s.talking <==> exists i :: 0 <= i < |ms| && !ms[i].role.System?)
  }

  lemma PlacedSystem(to: Protocol, bs: seq<Block>)
    requires !OpenAI(to)
    ensures Placed(to, System, bs) == Under(System, bs)
  {
  }

  lemma SystemTurns(to: Protocol, system: seq<Block>, messages: seq<Message>, bs: seq<Block>)
    requires !OpenAI(to) && messages == []
    ensures Under(System, system) + Turns(messages) + Placed(to, System, bs) == Under(System, system + bs) + Turns(messages)
  {
    hide Placed, Under;
    PlacedSystem(to, bs);
    UnderConcat(System, system, bs);
    NoTurns();
    var pre, more := Under(System, system), Under(System, bs);
    assert pre + [] + more == (pre + more) + [];
  }

  lemma SplitPlaced(to: Protocol, messages: seq<Message>, role: Role, bs: seq<Block>)
    requires OpenAI(to)
    ensures Under(System, []) + Turns(messages) + Placed(to, role, bs) == Under(System, []) + Turns(SplitLoop(role, messages, [], bs))
  {
    hide Placed, Turns, SplitLoop;
    SplitTurns(to, role, messages, [], bs);
    var shown, more := Turns(messages), Placed(to, role, bs);
    assert Under(System, []) == [] && Under(role, []) == [];
    assert [] + shown + more == shown + more && [] + (shown + [] + more) == shown + more;
  }

  lemma PushPlaced(to: Protocol, system: seq<Block>, messages: seq<Message>, role: Role, bs: seq<Block>)
    requires !OpenAI(to) && !role.System?
    ensures Under(System, system) + Turns(messages) + Placed(to, role, bs) == Under(System, system) + Turns(PushAll(messages, role, bs))
  {
    hide Placed, Turns, PushAll, Under;
    PushAllTurns(to, messages, role, bs);
    var pre, shown, more := Under(System, system), Turns(messages), Placed(to, role, bs);
    assert pre + shown + more == pre + (shown + more);
  }

  lemma TalkingSnoc(ms: seq<Message>, m: Message)
    ensures (exists i :: 0 <= i < |ms + [m]| && !(ms + [m])[i].role.System?) <==>
              (exists i :: 0 <= i < |ms| && !ms[i].role.System?) || !m.role.System?
  {
    var all := ms + [m];
    assert forall i :: 0 <= i < |ms| ==> all[i] == ms[i];
    assert all[|ms|] == m;
  }

  lemma AddHolds(host: Host, from: Protocol, to: Protocol, s: State, ms: seq<Message>, m: Message)
    requires Holds(host, from, to, s, ms) && Add(host, from, to, s, m).Some?
    ensures Holds(host, from, to, Add(host, from, to, s, m).value, ms + [m])
  {
    hide RewriteTurns, Turns, RewriteBlocks, SplitLoop, PushAll, Under, Placed;
    TurnsSnoc(ms, m);
    TalkingSnoc(ms, m);
    RewriteMessage(host, from, to, Turns(ms), m.role, m.blocks);
    var bs := RewriteBlocks(host, from, to, m.role, s.book, m.blocks).value.0;
    if m.role.System? && !OpenAI(to) {
      SystemTurns(to, s.system, s.messages, bs);
    } else if OpenAI(to) {
      SplitPlaced(to, s.messages, m.role, bs);
    } else {
      PushPlaced(to, s.system, s.messages, m.role, bs);
    }
  }

  lemma NoTurns()
    ensures Turns([]) == []
  {
  }

  lemma {:induction false} AddAllHolds(host: Host, from: Protocol, to: Protocol, ms: seq<Message>)
    ensures AddAll(host, from, to, ms).Some? ==> Holds(host, from, to, AddAll(host, from, to, ms).value, ms)
  {
    hide Add, Holds;
    if ms == [] {
      BeginHolds(host, from, to);
    } else {
      var init, last := ms[..|ms| - 1], ms[|ms| - 1];
      AddAllHolds(host, from, to, init);
      assert ms == init + [last];
      var s := AddAll(host, from, to, init);
      if s.Some? && Add(host, from, to, s.value, last).Some? {
        AddHolds(host, from, to, s.value, init, last);
      }
    }
  }

  lemma BeginHolds(host: Host, from: Protocol, to: Protocol)
    ensures Holds(host, from, to, Begin, [])
  {
    assert Under(System, []) + Turns([]) == [];
  }

  lemma AssembledTurns(s: State)
    ensures Turns(Assembled(s)) == Under(System, s.system) + Turns(s.messages)
  {
    hide Turns;
    if s.system == [] {
      assert Under(System, []) + Turns(s.messages) == Turns(s.messages);
    } else {
      TurnsConcat([Message(System, s.system)], s.messages);
      TurnsSnoc([], Message(System, s.system));
      NoTurns();
      assert [] + [Message(System, s.system)] == [Message(System, s.system)];
    }
  }

  /**
   A projected conversation is the original one turn by turn: the same number of blocks in the
   same order, each rewritten on its own and under the role the destination gives it.
   */
  lemma NothingDroppedOrMoved(host: Host, from: Protocol, to: Protocol, ms: seq<Message>)
    requires Project(host, from, to, ms).Some?
    ensures var r := RewriteTurns(host, from, to, Turns(ms));
            r.Some? && Turns(Project(host, from, to, ms).value) == r.value.0
  {
    hide RewriteTurns, Turns, Assembled, AddAll;
    AddAllHolds(host, from, to, ms);
    AssembledTurns(AddAll(host, from, to, ms).value);
  }

  /** Some call among the turns has this identity and this name. */
  ghost predicate CallNamed(ts: seq<Turn>, id: string, name: string) {
    exists j :: 0 <= j < |ts| && ts[j].1.ToolUse? && ts[j].1.id == id && ts[j].1.name == name
  }

  ghost predicate BookNames(ts: seq<Turn>, book: Book) {
    forall id :: id in book.calls ==> CallNamed(ts, id, book.calls[id])
  }

  lemma NamedSnoc(ts: seq<Turn>, t: Turn, id: string, name: string)
    ensures CallNamed(ts + [t], id, name) <==> CallNamed(ts, id, name) || (t.1.ToolUse? && t.1.id == id && t.1.name == name)
  {
    var all := ts + [t];
    assert all[|ts|] == t && forall j :: 0 <= j < |ts| ==> all[j] == ts[j];
  }

  /** Every name in the book is that of a call among the turns read. */
  lemma {:induction false} NamesComeFromCalls(host: Host, from: Protocol, to: Protocol, ts: seq<Turn>)
    ensures var r := RewriteTurns(host, from, to, ts); r.Some? ==> BookNames(ts, r.value.1)
    decreases |ts|
  {
    hide CallNamed, Rewrite;
    if ts != [] {
      var init, last := ts[..|ts| - 1], ts[|ts| - 1];
      NamesComeFromCalls(host, from, to, init);
      var front := RewriteTurns(host, from, to, init);
      if front.Some? {
        RewriteSplits(host, from, to, last, front.value.1);
        forall id, name ensures CallNamed(ts, id, name) <==> CallNamed(init, id, name) || (last.1.ToolUse? && last.1.id == id && last.1.name == name) {
          NamedSnoc(init, last, id, name);
          assert ts == init + [last];
        }
      }
    }
  }

  /** What rewriting leaves of a block, given the turns before it: Gemini results take their call's name. */
  ghost predicate SameBlock(host: Host, from: Protocol, to: Protocol, earlier: seq<Turn>, was: Block, now: Block) {
    match was
    case ToolResult(id, name, content, _, _) =>
      && now.ToolResult? && now.id == id && TextOf(now.content) == TextOf(content)
      && (!U.IsGemini(to) ==> now.content == content)
      && (OpenAI(to) ==> now.name == name) && (to.Anthropic? ==> now.name == "")
      && (U.IsGemini(to) ==> CallNamed(earlier, id, now.name))
    case Media(m) => now.Media? && host.media(m, from, to) == Some(now.media)
    case _ => now == was
  }

  lemma RewriteSame(host: Host, from: Protocol, to: Protocol, role: Role, earlier: seq<Turn>, book: Book, b: Block)
    requires Rewrite(host, from, to, role, book, b).Some? && BookNames(earlier, book)
    ensures SameBlock(host, from, to, earlier, b, Rewrite(host, from, to, role, book, b).value.0)
  {
    hide CallNamed;
    if b.ToolResult? {
      var one := [Content(TextOf(b.content), false, false)];
      assert one[..0] == [];
      assert TextOf(one) == TextOf(one[..0]) + TextOf(b.content);
      assert "" + TextOf(b.content) == TextOf(b.content);
    }
  }

  /** Each turn of the projection is the same block under the destination's role. */
  lemma {:induction false} TurnsMatch(host: Host, from: Protocol, to: Protocol, ts: seq<Turn>)
    ensures var r := RewriteTurns(host, from, to, ts);
            r.Some? ==> forall i :: 0 <= i < |ts| ==>
              r.value.0[i].0 == RoleIn(to, ts[i].0, ts[i].1) && SameBlock(host, from, to, ts[..i], ts[i].1, r.value.0[i].1)
    decreases |ts|
  {
    hide Rewrite, SameBlock, RoleIn, BookNames;
    if ts != [] {
      var n := |ts| - 1;
      var init, last := ts[..n], ts[n];
      TurnsMatch(host, from, to, init);
      assert forall i :: 0 <= i < n ==> init[i] == ts[i] && init[..i] == ts[..i];
      var front := RewriteTurns(host, from, to, init);
      if front.Some? && Rewrite(host, from, to, last.0, front.value.1, last.1).Some? {
        NamesComeFromCalls(host, from, to, init);
        RewriteSame(host, from, to, last.0, init, front.value.1, last.1);
      }
    }
  }

  /**
   The roles of a projected conversation: on the OpenAI protocols a tool result stands under `Tool` and any other
   block under its own role; elsewhere a system block stays one, a tool result and every block of
   a tool message stand under `User`, and the rest keep their role.
   */
  lemma RolesAre(host: Host, from: Protocol, to: Protocol, ms: seq<Message>, i: nat)
    requires Project(host, from, to, ms).Some? && i < |Turns(ms)|
    ensures |Turns(Project(host, from, to, ms).value)| == |Turns(ms)|
    ensures var (role, b) := Turns(ms)[i];
            var now := Turns(Project(host, from, to, ms).value)[i].0;
            && (to.OpenAIChat? || to.OpenAIResponses? ==> now == if b.ToolResult? then Tool else role)
            && (to.Anthropic? || to.Gemini? || to.GeminiCodeAssist? ==>
                  && (role == System ==> now == System)
                  && (role == Tool ==> now == User)
                  && (b.ToolResult? && role != System ==> now == User)
                  && (!b.ToolResult? && role != System && role != Tool ==> now == role))
  {
    hide RewriteTurns, SameBlock, Project, Turns;
    NothingDroppedOrMoved(host, from, to, ms);
    TurnsMatch(host, from, to, Turns(ms));
  }

  // ----- what is accepted -----

  /** A block that is fine on its own. */
  predicate BlockOk(host: Host, from: Protocol, to: Protocol, t: Turn) {
    match t.1
    case Text(_, bound) => !bound
    case ToolUse(id, name, _, bound, isFunction) =>
      t.0 == Assistant && name != "" && id != "" && !bound && isFunction && host.identity(to, name, id)
    case ToolResult(_, _, content, bound, isFunction) =>
      !bound && isFunction && forall c :: c in content ==> !c.breakpoint && !c.unknown
    case Media(m) => host.media(m, from, to).Some?
    case _ => false
  }

  predicate Answers(use: Block, result: Block) {
    use.ToolUse? && result.ToolResult? && use.id == result.id && (result.name == "" || result.name == use.name)
  }

  /** Calls have their own identities, and each result answers an earlier call that no other result answers. */
  ghost predicate Paired(ts: seq<Turn>) {
    CalledOnce(ts) && AnsweredOnce(ts) && ResultsAnswer(ts)
  }

  ghost predicate CalledOnce(ts: seq<Turn>) {
    forall i, j :: 0 <= i < j < |ts| && ts[i].1.ToolUse? && ts[j].1.ToolUse? ==> ts[i].1.id != ts[j].1.id
  }

  ghost predicate AnsweredOnce(ts: seq<Turn>) {
    forall i, j :: 0 <= i < j < |ts| && ts[i].1.ToolResult? && ts[j].1.ToolResult? ==> ts[i].1.id != ts[j].1.id
  }

  ghost predicate ResultsAnswer(ts: seq<Turn>) {
    forall j :: 0 <= j < |ts| && ts[j].1.ToolResult? ==> exists i :: 0 <= i < j && Answers(ts[i].1, ts[j].1)
  }

  ghost predicate Conversation(host: Host, from: Protocol, to: Protocol, ts: seq<Turn>) {
    Paired(ts) && forall i :: 0 <= i < |ts| ==> BlockOk(host, from, to, ts[i])
  }

  /** The book is the calls and answers so far. */
  ghost predicate Recorded(ts: seq<Turn>, book: Book) {
    && (forall i :: 0 <= i < |ts| && ts[i].1.ToolUse? ==> ts[i].1.id in book.calls && book.calls[ts[i].1.id] == ts[i].1.name)
    && (forall id :: id in book.calls ==> exists i :: 0 <= i < |ts| && ts[i].1.ToolUse? && ts[i].1.id == id)
    && (forall i :: 0 <= i < |ts| && ts[i].1.ToolResult? ==> ts[i].1.id in book.answered)
    && (forall id :: id in book.answered ==> exists i :: 0 <= i < |ts| && ts[i].1.ToolResult? && ts[i].1.id == id)
  }

  /** The part of the block rules that depends on what came before. */
  predicate FitsBook(book: Book, b: Block) {
    && (b.ToolUse? ==> b.id !in book.calls)
    && (b.ToolResult? ==> b.id in book.calls && b.id !in book.answered && (b.name == "" || b.name == book.calls[b.id]))
  }

  lemma RewriteSplits(host: Host, from: Protocol, to: Protocol, t: Turn, book: Book)
    ensures Rewrite(host, from, to, t.0, book, t.1).Some? <==> BlockOk(host, from, to, t) && FitsBook(book, t.1)
    ensures var r := Rewrite(host, from, to, t.0, book, t.1);
            r.Some? ==> r.value.1 == (if t.1.ToolUse? then book.(calls := book.calls[t.1.id := t.1.name])
                                      else if t.1.ToolResult? then book.(answered := book.answered + {t.1.id}) else book)
  {
  }

  lemma OnceFits(ts: seq<Turn>, t: Turn, book: Book)
    requires Recorded(ts, book) && CalledOnce(ts) && AnsweredOnce(ts) && FitsBook(book, t.1)
    ensures CalledOnce(ts + [t]) && AnsweredOnce(ts + [t])
  {
    var all := ts + [t];
    assert forall i :: 0 <= i < |ts| ==> all[i] == ts[i];
    assert all[|ts|] == t;
  }

  lemma AnswerFits(ts: seq<Turn>, t: Turn, book: Book)
    requires Recorded(ts, book) && ResultsAnswer(ts) && FitsBook(book, t.1)
    ensures ResultsAnswer(ts + [t])
  {
    var all := ts + [t];
    assert forall i :: 0 <= i < |ts| ==> all[i] == ts[i];
    assert all[|ts|] == t;
    forall j | 0 <= j < |all| && all[j].1.ToolResult? ensures exists i :: 0 <= i < j && Answers(all[i].1, all[j].1) {
      if j < |ts| {
        var i :| 0 <= i < j && Answers(ts[i].1, ts[j].1);
        assert Answers(all[i].1, all[j].1);
      } else {
        var i :| 0 <= i < |ts| && ts[i].1.ToolUse? && ts[i].1.id == t.1.id;
        assert Answers(all[i].1, all[j].1);
      }
    }
  }

  lemma PairedFits(ts: seq<Turn>, t: Turn, book: Book)
    requires Recorded(ts, book) && Paired(ts) && FitsBook(book, t.1)
    ensures Paired(ts + [t])
  {
    hide Recorded, CalledOnce, AnsweredOnce, ResultsAnswer, FitsBook;
    OnceFits(ts, t, book);
    AnswerFits(ts, t, book);
  }

  lemma FitsPaired(ts: seq<Turn>, t: Turn, book: Book)
    requires Recorded(ts, book) && Paired(ts + [t])
    ensures FitsBook(book, t.1)
  {
    var all, n := ts + [t], |ts|;
    assert forall i :: 0 <= i < n ==> all[i] == ts[i];
    assert all[n] == t;
    if t.1.ToolResult? {
      var i :| 0 <= i < n && Answers(all[i].1, all[n].1);
      assert ts[i].1.id in book.calls;
    }
  }

  lemma PairedFront(ts: seq<Turn>, t: Turn)
    requires Paired(ts + [t])
    ensures Paired(ts)
  {
    var all := ts + [t];
    assert forall i :: 0 <= i < |ts| ==> all[i] == ts[i];
    forall j | 0 <= j < |ts| && ts[j].1.ToolResult? ensures exists i :: 0 <= i < j && Answers(ts[i].1, ts[j].1) {
      var i :| 0 <= i < j && Answers(all[i].1, all[j].1);
    }
  }

  lemma RecordedSnoc(ts: seq<Turn>, t: Turn, book: Book)
    requires Recorded(ts, book) && FitsBook(book, t.1)
    ensures Recorded(ts + [t], if t.1.ToolUse? then book.(calls := book.calls[t.1.id := t.1.name])
                               else if t.1.ToolResult? then book.(answered := book.answered + {t.1.id}) else book)
  {
    var all, n := ts + [t], |ts|;
    assert forall i :: 0 <= i < n ==> all[i] == ts[i];
    assert all[n] == t;
    var next := if t.1.ToolUse? then book.(calls := book.calls[t.1.id := t.1.name])
                else if t.1.ToolResult? then book.(answered := book.answered + {t.1.id}) else book;
    forall id | id in next.calls ensures exists i :: 0 <= i < |all| && all[i].1.ToolUse? && all[i].1.id == id {
      if id in book.calls {
        var i :| 0 <= i < n && ts[i].1.ToolUse? && ts[i].1.id == id;
        assert all[i].1.ToolUse?;
      } else {
        assert all[n].1.ToolUse?;
      }
    }
    forall id | id in next.answered ensures exists i :: 0 <= i < |all| && all[i].1.ToolResult? && all[i].1.id == id {
      if id in book.answered {
        var i :| 0 <= i < n && ts[i].1.ToolResult? && ts[i].1.id == id;
        assert all[i].1.ToolResult?;
      } else {
        assert all[n].1.ToolResult?;
      }
    }
  }

  lemma {:induction false} RewritesConversations(host: Host, from: Protocol, to: Protocol, ts: seq<Turn>)
    ensures RewriteTurns(host, from, to, ts).Some? <==> Conversation(host, from, to, ts)
    ensures RewriteTurns(host, from, to, ts).Some? ==> Recorded(ts, RewriteTurns(host, from, to, ts).value.1)
  {
    hide Rewrite, BlockOk, Paired, Recorded, FitsBook;
    if ts == [] {
      NothingPaired();
    } else {
      var init, last := ts[..|ts| - 1], ts[|ts| - 1];
      assert ts == init + [last];
      RewritesConversations(host, from, to, init);
      var front := RewriteTurns(host, from, to, init);
      if front.Some? {
        var book := front.value.1;
        RewriteSplits(host, from, to, last, book);
        if FitsBook(book, last.1) {
          PairedFits(init, last, book);
          RecordedSnoc(init, last, book);
        } else if Paired(init + [last]) {
          FitsPaired(init, last, book);
        }
      } else if Paired(init + [last]) {
        PairedFront(init, last);
      }
    }
  }

  lemma NothingPaired()
    ensures Paired([]) && Recorded([], NoCalls)
  {
  }

  /** The preamble targets take system messages only before everything else. */
  ghost predicate SystemLeads(to: Protocol, ms: seq<Message>) {
    to.OpenAIChat? || to.OpenAIResponses? ||
    forall i, j :: 0 <= i < j < |ms| && ms[j].role == System ==> ms[i].role == System
  }

  /** The four roles every protocol has, and the developer's on the OpenAI ones. */
  predicate RoleKnown(to: Protocol, role: Role) {
    || role == System || role == User || role == Assistant || role == Tool
    || (role == Developer && (to.OpenAIChat? || to.OpenAIResponses?))
  }

  /** The conversations that can be projected, said without running the projection. */
  ghost predicate Projectable(host: Host, from: Protocol, to: Protocol, ms: seq<Message>) {
    && (forall i :: 0 <= i < |ms| ==> RoleKnown(to, ms[i].role))
    && SystemLeads(to, ms)
    && Conversation(host, from, to, Turns(ms))
  }

  lemma ProjectableSnoc(host: Host, from: Protocol, to: Protocol, s: State, ms: seq<Message>, m: Message)
    requires Holds(host, from, to, s, ms) && Projectable(host, from, to, ms)
    ensures Add(host, from, to, s, m).Some? <==> Projectable(host, from, to, ms + [m])
  {
    hide RewriteTurns, Turns, Rewrite, RewriteBlocks, SplitLoop, PushAll, Conversation;
    TurnsSnoc(ms, m);
    RewriteMessage(host, from, to, Turns(ms), m.role, m.blocks);
    RewritesConversations(host, from, to, Turns(ms + [m]));
    var all := ms + [m];
    assert forall i :: 0 <= i < |ms| ==> all[i] == ms[i];
    assert all[|ms|] == m;
    assert SystemLeads(to, all) <==> !(m.role.System? && s.talking && !OpenAI(to));
  }

  lemma ProjectableFront(host: Host, from: Protocol, to: Protocol, ms: seq<Message>, m: Message)
    requires Projectable(host, from, to, ms + [m])
    ensures Projectable(host, from, to, ms)
  {
    hide Turns, RewriteTurns, RewriteBlocks;
    var all := ms + [m];
    assert forall i :: 0 <= i < |ms| ==> all[i] == ms[i];
    TurnsSnoc(ms, m);
    ConversationFront(host, from, to, Turns(ms), Under(m.role, m.blocks));
  }

  lemma {:induction false} ConversationFront(host: Host, from: Protocol, to: Protocol, a: seq<Turn>, b: seq<Turn>)
    requires Conversation(host, from, to, a + b)
    ensures Conversation(host, from, to, a)
    decreases |b|
  {
    hide BlockOk, Paired;
    if b == [] {
      assert a + b == a;
    } else {
      var init, last := b[..|b| - 1], b[|b| - 1];
      assert a + b == (a + init) + [last];
      PairedFront(a + init, last);
      assert forall i :: 0 <= i < |a + init| ==> (a + b)[i] == (a + init)[i];
      ConversationFront(host, from, to, a, init);
    }
  }

  /** Projection succeeds exactly on the projectable conversations. */
  lemma {:induction false} ProjectsExactly(host: Host, from: Protocol, to: Protocol, ms: seq<Message>)
    ensures Project(host, from, to, ms).Some? <==> Projectable(host, from, to, ms)
  {
    hide Add, Holds, Projectable, Assembled;
    if ms == [] {
      NothingProjected(host, from, to);
    } else {
      var init, last := ms[..|ms| - 1], ms[|ms| - 1];
      assert ms == init + [last];
      ProjectsExactly(host, from, to, init);
      AddAllHolds(host, from, to, init);
      var s := AddAll(host, from, to, init);
      if s.Some? {
        ProjectableSnoc(host, from, to, s.value, init, last);
      } else if Projectable(host, from, to, init + [last]) {
        ProjectableFront(host, from, to, init, last);
      }
    }
  }

  lemma NothingProjected(host: Host, from: Protocol, to: Protocol)
    ensures Projectable(host, from, to, [])
  {
    NothingPaired();
    assert Turns([]) == [];
  }

  // ----- the shape each family of destinations needs -----

  /** A tool message is one result, and results stand only there. */
  predicate ResultAlone(m: Message) {
    forall i :: 0 <= i < |m.blocks| && m.blocks[i].ToolResult? ==> m.role == Tool && |m.blocks| == 1
  }

  predicate ResultsAlone(ms: seq<Message>) {
    forall i :: 0 <= i < |ms| ==> ms[i].blocks != [] && ResultAlone(ms[i])
  }

  lemma {:induction false} SplitShape(role: Role, done: seq<Message>, pending: seq<Block>, bs: seq<Block>)
    requires ResultsAlone(done) && forall i :: 0 <= i < |pending| ==> !pending[i].ToolResult?
    ensures ResultsAlone(SplitLoop(role, done, pending, bs))
    decreases |bs|
  {
    if bs != [] {
      if bs[0].ToolResult? {
        SplitShape(role, Flush(role, done, pending) + [Message(Tool, [bs[0]])], [], bs[1..]);
      } else {
        SplitShape(role, done, pending + [bs[0]], bs[1..]);
      }
    }
  }

  /** No two neighbours share a role. */
  predicate Alternates(ms: seq<Message>) {
    forall i :: 0 <= i < |ms| - 1 ==> ms[i].role != ms[i + 1].role
  }

  predicate NoSystem(ms: seq<Message>) {
    forall i :: 0 <= i < |ms| ==> !ms[i].role.System? && !ms[i].role.Tool?
  }

  lemma PushOneShape(ms: seq<Message>, role: Role, b: Block)
    requires Alternates(ms) && NoSystem(ms) && !role.System? && !role.Tool?
    ensures Alternates(Push(ms, role, b)) && NoSystem(Push(ms, role, b))
  {
  }

  lemma {:induction false} PushShape(ms: seq<Message>, role: Role, bs: seq<Block>)
    requires Alternates(ms) && NoSystem(ms) && !role.System?
    ensures Alternates(PushAll(ms, role, bs)) && NoSystem(PushAll(ms, role, bs))
    decreases |bs|
  {
    hide Alternates, NoSystem, Push;
    if bs != [] {
      var n := |bs| - 1;
      PushShape(ms, role, bs[..n]);
      PushOneShape(PushAll(ms, role, bs[..n]), SideRole(role, bs[n]), bs[n]);
    }
  }

  ghost predicate Shaped(to: Protocol, s: State) {
    if OpenAI(to) then ResultsAlone(s.messages) && s.system == [] else Alternates(s.messages) && NoSystem(s.messages)
  }

  lemma {:induction false} AddAllShaped(host: Host, from: Protocol, to: Protocol, ms: seq<Message>)
    ensures AddAll(host, from, to, ms).Some? ==> Shaped(to, AddAll(host, from, to, ms).value)
  {
    hide RewriteBlocks, SplitLoop, PushAll, ResultsAlone, Alternates, NoSystem;
    if ms == [] {
      assert ResultsAlone([]) && Alternates([]) && NoSystem([]) by { NothingShaped(); }
    } else {
      var init, last := ms[..|ms| - 1], ms[|ms| - 1];
      AddAllShaped(host, from, to, init);
      var s := AddAll(host, from, to, init);
      if s.Some? && Add(host, from, to, s.value, last).Some? {
        var bs := RewriteBlocks(host, from, to, last.role, s.value.book, last.blocks).value.0;
        if OpenAI(to) {
          SplitShape(last.role, s.value.messages, [], bs);
        } else if !last.role.System? {
          PushShape(s.value.messages, last.role, bs);
        }
      }
    }
  }

  lemma NothingShaped()
    ensures ResultsAlone([]) && Alternates([]) && NoSystem([])
  {
  }

  /** OpenAI destinations get each tool result alone in a tool message and no empty message. */
  lemma OpenAIResultsStandAlone(host: Host, from: Protocol, to: Protocol, ms: seq<Message>)
    requires OpenAI(to) && Project(host, from, to, ms).Some?
    ensures ResultsAlone(Project(host, from, to, ms).value)
  {
    hide AddAll, ResultsAlone;
    AddAllShaped(host, from, to, ms);
  }

  /** The other destinations get at most one system message, first, no tool role, and strictly changing roles. */
  lemma OthersAlternate(host: Host, from: Protocol, to: Protocol, ms: seq<Message>)
    requires !OpenAI(to) && Project(host, from, to, ms).Some?
    ensures var out := Project(host, from, to, ms).value;
            Alternates(out) && forall i :: 0 <= i < |out| ==> !out[i].role.Tool? && (out[i].role.System? ==> i == 0)
  {
    hide AddAll;
    AddAllShaped(host, from, to, ms);
  }

  // ----- tool results in the projection -----

  lemma RewriteFits(host: Host, from: Protocol, to: Protocol, role: Role, book: Book, b: Block)
    requires Rewrite(host, from, to, role, book, b).Some?
    ensures var now := Rewrite(host, from, to, role, book, b).value.0;
            && FitsBook(book, now) && now.ToolUse? == b.ToolUse? && now.ToolResult? == b.ToolResult?
            && (b.ToolUse? ==> now == b) && (b.ToolResult? ==> now.id == b.id)
            && (b.ToolResult? && U.IsGemini(to) ==> now.name == book.calls[b.id])
  {
  }

  lemma {:induction false} RewrittenPaired(host: Host, from: Protocol, to: Protocol, ts: seq<Turn>)
    ensures var r := RewriteTurns(host, from, to, ts); r.Some? ==> Paired(r.value.0) && Recorded(r.value.0, r.value.1)
  {
    hide Rewrite, Paired, Recorded, FitsBook;
    if ts == [] {
      NothingPaired();
    } else {
      var init, last := ts[..|ts| - 1], ts[|ts| - 1];
      RewrittenPaired(host, from, to, init);
      var front := RewriteTurns(host, from, to, init);
      if front.Some? {
        var out, book := front.value.0, front.value.1;
        var now := Rewrite(host, from, to, last.0, book, last.1);
        if now.Some? {
          RewriteFits(host, from, to, last.0, book, last.1);
          RewriteSplits(host, from, to, last, book);
          var t := (RoleIn(to, last.0, last.1), now.value.0);
          PairedFits(out, t, book);
          RecordedSnoc(out, t, book);
        }
      }
    }
  }

  /** In the projection every tool result answers one earlier call, and no call is answered twice. */
  lemma ResultsAnswerEarlierCalls(host: Host, from: Protocol, to: Protocol, ms: seq<Message>)
    requires Project(host, from, to, ms).Some?
    ensures Paired(Turns(Project(host, from, to, ms).value))
  {
    hide Paired, RewriteTurns, Turns, Project;
    NothingDroppedOrMoved(host, from, to, ms);
    RewrittenPaired(host, from, to, Turns(ms));
  }

  // ----- the procedure -----

  lemma BlocksSnoc(host: Host, from: Protocol, to: Protocol, role: Role, book: Book, bs: seq<Block>, i: nat)
    requires i < |bs|
    ensures RewriteBlocks(host, from, to, role, book, bs[..i + 1]) ==
              (var front := RewriteBlocks(host, from, to, role, book, bs[..i]);
               if front.None? then None
               else
                 var last := Rewrite(host, from, to, role, front.value.1, bs[i]);
                 if last.None? then None else Some((front.value.0 + [last.value.0], last.value.1)))
  {
    hide Rewrite;
    assert bs[..i + 1][..i] == bs[..i];
  }

  method RewriteInOrder(host: Host, from: Protocol, to: Protocol, role: Role, book: Book, blocks: seq<Block>)
    returns (result: Option<(seq<Block>, Book)>)
    ensures result == RewriteBlocks(host, from, to, role, book, blocks)
  {
    hide Rewrite, RewriteBlocks;
    var out, now := [], book;
    assert RewriteBlocks(host, from, to, role, book, blocks[..0]) == Some(([], book)) by {
      NothingRewritten(host, from, to, role, book, blocks[..0]);
    }
    for i := 0 to |blocks|
      invariant RewriteBlocks(host, from, to, role, book, blocks[..i]) == Some((out, now))
    {
      BlocksSnoc(host, from, to, role, book, blocks, i);
      var r := Rewrite(host, from, to, role, now, blocks[i]);
      if r.None? {
        RewriteStops(host, from, to, role, book, blocks, i + 1);
        return None;
      }
      out, now := out + [r.value.0], r.value.1;
    }
    assert blocks[..|blocks|] == blocks;
    return Some((out, now));
  }

  lemma NothingRewritten(host: Host, from: Protocol, to: Protocol, role: Role, book: Book, bs: seq<Block>)
    requires bs == []
    ensures RewriteBlocks(host, from, to, role, book, bs) == Some(([], book))
  {
  }

  lemma {:induction false} RewriteStops(host: Host, from: Protocol, to: Protocol, role: Role, book: Book, bs: seq<Block>, n: nat)
    requires n <= |bs| && RewriteBlocks(host, from, to, role, book, bs[..n]).None?
    ensures RewriteBlocks(host, from, to, role, book, bs).None?
    decreases |bs|
  {
    hide Rewrite;
    if n == |bs| {
      assert bs[..n] == bs;
    } else {
      var init := bs[..|bs| - 1];
      assert init[..n] == bs[..n];
      RewriteStops(host, from, to, role, book, init, n);
    }
  }

  method SplitResults(role: Role, messages: seq<Message>, blocks: seq<Block>) returns (out: seq<Message>)
    ensures out == SplitLoop(role, messages, [], blocks)
  {
    out := messages;
    var pending := [];
    for i := 0 to |blocks|
      invariant SplitLoop(role, out, pending, blocks[i..]) == SplitLoop(role, messages, [], blocks)
    {
      assert blocks[i..][0] == blocks[i] && blocks[i..][1..] == blocks[i + 1..];
      if blocks[i].ToolResult? {
        if pending != [] {
          out := out + [Message(role, pending)];
          pending := [];
        }
        out := out + [Message(Tool, [blocks[i]])];
      } else {
        pending := pending + [blocks[i]];
      }
    }
    if pending != [] {
      out := out + [Message(role, pending)];
    }
  }

  method MergeRoles(messages: seq<Message>, role: Role, blocks: seq<Block>) returns (out: seq<Message>)
    ensures out == PushAll(messages, role, blocks)
  {
    out := messages;
    for i := 0 to |blocks|
      invariant out == PushAll(messages, role, blocks[..i])
    {
      assert blocks[..i + 1][..i] == blocks[..i];
      var side := role;
      if blocks[i].ToolResult? || role == Tool {
        side := User;
      }
      if |out| > 0 && out[|out| - 1].role == side {
        var last := out[|out| - 1];
        out := out[|out| - 1 := last.(blocks := last.blocks + [blocks[i]])];
      } else {
        out := out + [Message(side, [blocks[i]])];
      }
    }
    assert blocks[..|blocks|] == blocks;
  }

  method ProjectMessages(host: Host, from: Protocol, to: Protocol, ms: seq<Message>) returns (result: Option<seq<Message>>)
    ensures result == Project(host, from, to, ms)
  {
    hide RewriteBlocks, SplitLoop, PushAll, AddAll;
    assert AddAll(host, from, to, ms[..0]) == Some(Begin) by { NothingAdded(host, from, to, ms[..0]); }
    var book, messages: seq<Message>, system: seq<Block>, talking := NoCalls, [], [], false;
    for i := 0 to |ms|
      invariant AddAll(host, from, to, ms[..i]) == Some(State(book, messages, system, talking))
    {
      AddAllSnoc(host, from, to, ms, i);
      var m := ms[i];
      if !RoleOk(to, m.role) || (m.role.System? && talking && !OpenAI(to)) {
        AddStops(host, from, to, ms, i + 1);
        return None;
      }
      if !m.role.System? {
        talking := true;
      }
      var rewritten := RewriteInOrder(host, from, to, m.role, book, m.blocks);
      if rewritten.None? {
        AddStops(host, from, to, ms, i + 1);
        return None;
      }
      book := rewritten.value.1;
      var blocks := rewritten.value.0;
      if m.role.System? && !OpenAI(to) {
        system := system + blocks;
      } else if OpenAI(to) {
        messages := SplitResults(m.role, messages, blocks);
      } else {
        messages := MergeRoles(messages, m.role, blocks);
      }
    }
    assert ms[..|ms|] == ms;
    if |system| > 0 {
      messages := [Message(System, system)] + messages;
    }
    return Some(messages);
  }

  lemma AddAllSnoc(host: Host, from: Protocol, to: Protocol, ms: seq<Message>, i: nat)
    requires i < |ms|
    ensures AddAll(host, from, to, ms[..i + 1]) ==
              (var s := AddAll(host, from, to, ms[..i]); if s.None? then None else Add(host, from, to, s.value, ms[i]))
  {
    hide Add;
    assert ms[..i + 1][..i] == ms[..i];
  }

  lemma NothingAdded(host: Host, from: Protocol, to: Protocol, ms: seq<Message>)
    requires ms == []
    ensures AddAll(host, from, to, ms) == Some(Begin)
  {
  }

  lemma {:induction false} AddStops(host: Host, from: Protocol, to: Protocol, ms: seq<Message>, n: nat)
    requires n <= |ms| && AddAll(host, from, to, ms[..n]).None?
    ensures AddAll(host, from, to, ms).None?
    decreases |ms|
  {
    hide Add;
    if n == |ms| {
      assert ms[..n] == ms;
    } else {
      var init := ms[..|ms| - 1];
      assert init[..n] == ms[..n];
      AddStops(host, from, to, init, n);
    }
  }
}
