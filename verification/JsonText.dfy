/**
 JSON texts as sections 2 to 7 of RFC 8259 spell them: a tree that keeps every byte of
 whitespace, every escape and every lexeme, and the bytes it stands for. `Render` is the
 grammar; a byte sequence is a JSON text exactly when it is the rendering of a tree.

 Two spellings are kept wider than the standard here: a string byte is any byte from 0x20 up
 except a quote or backslash, and a number or literal is any non-empty run of letters, digits,
 signs and dots. What is proved of the scanner then holds of more texts than it must; where a
 validator has to accept exactly the texts of a grammar, the lexical rules it adds (number
 syntax, UTF-8, paired surrogates) are asked of every lexeme as well.
 */
module JsonText {

  newtype byte = x: int | 0 <= x < 256

  type Bytes = seq<byte>

  const QUOTE: byte := 34
  const BACKSLASH: byte := 92
  const COMMA: byte := 44
  const COLON: byte := 58
  const LBRACE: byte := 123
  const RBRACE: byte := 125
  const LBRACKET: byte := 91
  const RBRACKET: byte := 93

  predicate IsSpace(b: byte) {
    b == 32 || b == 9 || b == 10 || b == 13
  }

  predicate Blank(bs: Bytes) {
    forall i :: 0 <= i < |bs| ==> IsSpace(bs[i])
  }

  predicate IsHex(b: byte) {
    48 <= b <= 57 || 65 <= b <= 70 || 97 <= b <= 102
  }

  predicate IsTokenByte(b: byte) {
    48 <= b <= 57 || 65 <= b <= 90 || 97 <= b <= 122 || b == 43 || b == 45 || b == 46
  }

  predicate IsToken(bs: Bytes) {
    bs != [] && forall i :: 0 <= i < |bs| ==> IsTokenByte(bs[i])
  }

  // ----- strings -----

  datatype Item = Plain(b: byte) | Escape(b: byte) | Unicode(h0: byte, h1: byte, h2: byte, h3: byte)

  predicate ItemOk(i: Item) {
    match i
    case Plain(b) => b >= 32 && b != QUOTE && b != BACKSLASH
    case Escape(b) => b == QUOTE || b == BACKSLASH || b == 47 || b == 98 || b == 102 || b == 110 || b == 114 || b == 116
    case Unicode(a, b, c, d) => IsHex(a) && IsHex(b) && IsHex(c) && IsHex(d)
  }

  function ItemBytes(i: Item): (bs: Bytes)
    ensures bs != []
  {
    match i
    case Plain(b) => [b]
    case Escape(b) => [BACKSLASH, b]
    case Unicode(a, b, c, d) => [BACKSLASH, 117, a, b, c, d]
  }

  predicate ItemsOk(items: seq<Item>) {
    forall i :: 0 <= i < |items| ==> ItemOk(items[i])
  }

  function ItemsBytes(items: seq<Item>): Bytes {
    if items == [] then [] else ItemBytes(items[0]) + ItemsBytes(items[1..])
  }

  function StringText(items: seq<Item>): Bytes {
    [QUOTE] + ItemsBytes(items) + [QUOTE]
  }

  // ----- values -----

  datatype Value =
    | Text(items: seq<Item>)
    | Token(bytes: Bytes)
    | Array(elems: seq<Elem>, inner: Bytes)
    | Object(members: seq<Member>, inner: Bytes)

  datatype Elem = Elem(before: Bytes, value: Value, after: Bytes)

  /** A member with the whitespace around its key, colon and value. */
  datatype Member = Member(before: Bytes, key: seq<Item>, keyGap: Bytes, valueGap: Bytes, value: Value, after: Bytes)

  predicate ValueOk(v: Value)
    decreases v
  {
    match v
    case Text(items) => ItemsOk(items)
    case Token(bytes) => IsToken(bytes)
    case Array(elems, inner) => Blank(inner) && forall i :: 0 <= i < |elems| ==> ElemOk(elems[i])
    case Object(members, inner) => Blank(inner) && forall i :: 0 <= i < |members| ==> MemberOk(members[i])
  }

  predicate ElemOk(e: Elem)
    decreases e
  {
    Blank(e.before) && ValueOk(e.value) && Blank(e.after)
  }

  predicate MemberOk(m: Member)
    decreases m
  {
    Blank(m.before) && ItemsOk(m.key) && Blank(m.keyGap) && Blank(m.valueGap) && ValueOk(m.value) && Blank(m.after)
  }

  predicate MembersOk(ms: seq<Member>) {
    forall i :: 0 <= i < |ms| ==> MemberOk(ms[i])
  }

  function Render(v: Value): Bytes
    decreases v
  {
    match v
    case Text(items) => StringText(items)
    case Token(bytes) => bytes
    case Array(elems, inner) => [LBRACKET] + (if elems == [] then inner else Elems(elems)) + [RBRACKET]
    case Object(members, inner) => [LBRACE] + (if members == [] then inner else Members(members)) + [RBRACE]
  }

  function Elems(es: seq<Elem>): Bytes
    requires es != []
    decreases es
  {
    var first := es[0].before + Render(es[0].value) + es[0].after;
    if |es| == 1 then first else first + ([COMMA] + Elems(es[1..]))
  }

  /** The bytes of a member up to its value. */
  function MemberHead(m: Member): Bytes {
    m.before + StringText(m.key) + m.keyGap + [COLON] + m.valueGap
  }

  function MemberBytes(m: Member): Bytes
    decreases m
  {
    MemberHead(m) + Render(m.value) + m.after
  }

  function Members(ms: seq<Member>): Bytes
    requires ms != []
    decreases ms
  {
    if |ms| == 1 then MemberBytes(ms[0]) else MemberBytes(ms[0]) + ([COMMA] + Members(ms[1..]))
  }

  /** A whole text: a value between whitespace. */
  datatype Doc = Doc(before: Bytes, value: Value, after: Bytes)

  predicate DocOk(d: Doc) {
    Blank(d.before) && ValueOk(d.value) && Blank(d.after)
  }

  function DocBytes(d: Doc): Bytes {
    d.before + Render(d.value) + d.after
  }

  // ----- members, split -----

  /** The bytes before a member that follows `ms`. */
  function Left(ms: seq<Member>): Bytes {
    if ms == [] then [] else Members(ms) + [COMMA]
  }

  /** The bytes after a member that `ms` follow. */
  function Right(ms: seq<Member>): Bytes {
    if ms == [] then [] else [COMMA] + Members(ms)
  }

  lemma {:induction false} MembersJoin(a: seq<Member>, b: seq<Member>)
    requires a != [] && b != []
    ensures Members(a + b) == Members(a) + [COMMA] + Members(b)
    decreases |a|
  {
    hide MemberBytes;
    if |a| == 1 {
      assert (a + b)[1..] == b;
      assert a + b == [a[0]] + b;
    } else {
      assert (a + b)[1..] == a[1..] + b;
      MembersJoin(a[1..], b);
    }
  }

  lemma MembersHead(m: Member, back: seq<Member>)
    ensures Members([m] + back) == MemberBytes(m) + Right(back)
  {
    hide MemberBytes;
    var all := [m] + back;
    assert all[0] == m && all[1..] == back;
  }

  lemma MembersTail(front: seq<Member>, tail: seq<Member>)
    requires tail != []
    ensures Members(front + tail) == Left(front) + Members(tail)
  {
    hide MemberBytes, Members;
    if front == [] {
      assert front + tail == tail;
    } else {
      MembersJoin(front, tail);
    }
  }

  /** A member list is its i-th member between what precedes and what follows it. */
  lemma MembersSplit(ms: seq<Member>, i: nat)
    requires i < |ms|
    ensures Members(ms) == Left(ms[..i]) + MemberBytes(ms[i]) + Right(ms[i + 1..])
  {
    hide MemberBytes, Members, Left, Right;
    var front, m, back := ms[..i], ms[i], ms[i + 1..];
    assert ms == front + ([m] + back);
    MembersTail(front, [m] + back);
    MembersHead(m, back);
    assert Left(front) + (MemberBytes(m) + Right(back)) == Left(front) + MemberBytes(m) + Right(back);
  }

  lemma OneMember(m: Member)
    ensures Members([m]) == MemberBytes(m)
  {
  }

  lemma LeftSnoc(ms: seq<Member>, m: Member)
    ensures Left(ms + [m]) == Left(ms) + MemberBytes(m) + [COMMA]
  {
    hide MemberBytes, Members;
    OneMember(m);
    if ms == [] {
      assert ms + [m] == [m];
    } else {
      MembersJoin(ms, [m]);
    }
  }

  /** The first byte of a value is neither whitespace nor a closing bracket; the last is neither whitespace nor an opening one. */
  lemma ValueEdges(v: Value)
    requires ValueOk(v)
    ensures Render(v) != []
    ensures var b := Render(v)[0]; !IsSpace(b) && b != RBRACE && b != RBRACKET && b != COMMA
    ensures var b := Render(v)[|Render(v)| - 1]; !IsSpace(b) && b != LBRACE
  {
  }
}
