/**
 Token usage across protocols: the streaming conversion (internal/bridge/stream.go:511-552) and the
 counters of the parse-then-marshal path (internal/bridge/response.go:385-403, 517-530, 1234-1426,
 1591-1656).

 A usage report carries four 64-bit counters. Anthropic's input counter leaves cached tokens out;
 every other contract's includes them.
 */
module BridgeUsage {
  import opened Wrappers

  datatype Protocol = OpenAIChat | OpenAIResponses | Anthropic | Gemini | GeminiCodeAssist

  predicate IsGemini(p: Protocol) {
    p.Gemini? || p.GeminiCodeAssist?
  }

  const MAX: int := 0x7fff_ffff_ffff_ffff

  predicate Is64(x: int) {
    -MAX - 1 <= x <= MAX
  }

  /** Two's complement. */
  function Wrap(x: int): (r: int)
    ensures Is64(r)
    ensures Is64(x) ==> r == x
  {
    (x + MAX + 1) % (2 * (MAX + 1)) - MAX - 1
  }

  datatype Usage = Usage(input: int, output: int, read: int, write: int)

  predicate Fits(u: Usage) {
    Is64(u.input) && Is64(u.output) && Is64(u.read) && Is64(u.write)
  }

  // ----- the streaming path -----

  function StreamAdd(a: int, b: int): Option<int> {
    if a < 0 || b < 0 || a > MAX - b then None else Some(a + b)
  }

  function Normalize(u: Usage, from: Protocol, to: Protocol): Option<Usage> {
    if u.input < 0 || u.output < 0 || u.read < 0 || u.write < 0 then None
    else
      var cache := StreamAdd(u.read, u.write);
      if cache.None? || (!from.Anthropic? && cache.value > u.input) then None
      else
        var sum := StreamAdd(u.input, u.read);
        var whole := if sum.None? then None else StreamAdd(sum.value, u.write);
        if from.Anthropic? && !to.Anthropic? && whole.None? then None
        else
          var input :=
            if from.Anthropic? && !to.Anthropic? then whole.value
            else if !from.Anthropic? && to.Anthropic? then u.input - cache.value else u.input;
          if StreamAdd(input, u.output).None? then None else Some(u.(input := input))
  }

  // ----- the parse-then-marshal path -----

  function CheckedAdd(a: int, b: int): Option<int> {
    if a > Wrap(MAX - b) then None else Some(Wrap(a + b))
  }

  /** validateUsage on the canonical counters, whose input includes the cache. */
  predicate Valid(u: Usage) {
    && u.input >= 0 && u.output >= 0 && u.read >= 0 && u.write >= 0
    && CheckedAdd(u.input, u.output).Some?
    && CheckedAdd(u.read, u.write).Some? && CheckedAdd(u.read, u.write).value <= u.input
  }

  /** A reported usage as canonical counters; `total` is the reported sum, where the contract has one. */
  function Parse(p: Protocol, u: Usage, total: Option<int>): Option<Usage> {
    if p.Anthropic? then
      var sum := CheckedAdd(u.input, u.read);
      var whole := if sum.None? then None else CheckedAdd(sum.value, u.write);
      if whole.None? || !Valid(u.(input := whole.value)) then None else Some(u.(input := whole.value))
    else
      var want := CheckedAdd(u.input, u.output);
      if want.None? || (total.Some? && total.value != want.value) || !Valid(u) then None else Some(u)
  }

  /** The contracts whose completed responses have no place for cache writes. */
  predicate HidesWrites(p: Protocol) {
    IsGemini(p) || p.OpenAIChat?
  }

  /** Canonical counters as the destination reports them. */
  function Marshal(p: Protocol, u: Usage): Option<Usage> {
    if !Valid(u) || (HidesWrites(p) && u.write != 0) then None
    else if p.Anthropic? then Some(u.(input := Wrap(Wrap(u.input - u.read) - u.write)))
    else Some(u)
  }

  function Translate(u: Usage, total: Option<int>, from: Protocol, to: Protocol): Option<Usage> {
    var c := Parse(from, u, total);
    if c.None? then None else Marshal(to, c.value)
  }

  // ----- what a report means -----

  /** Input tokens not served from or written to a cache. */
  function Uncached(p: Protocol, u: Usage): int {
    if p.Anthropic? then u.input else u.input - u.read - u.write
  }

  /** All input tokens. */
  function Whole(p: Protocol, u: Usage): int {
    Uncached(p, u) + u.read + u.write
  }

  /** Counters that are not negative, whose cache is within the input, and whose sums can be represented. */
  predicate Sensible(p: Protocol, u: Usage) {
    && u.output >= 0 && u.read >= 0 && u.write >= 0 && Uncached(p, u) >= 0
    && Whole(p, u) + u.output <= MAX
  }

  lemma CheckedIsExact(a: int, b: int)
    requires 0 <= a <= MAX && 0 <= b <= MAX
    ensures CheckedAdd(a, b) == if a + b <= MAX then Some(a + b) else None
    ensures StreamAdd(a, b) == CheckedAdd(a, b)
  {
    assert Wrap(MAX - b) == MAX - b;
  }

  /** The streaming path accepts the sensible reports, and beyond them only sums it does not form. */
  lemma NormalizeAccepts(u: Usage, from: Protocol, to: Protocol)
    requires Fits(u)
    ensures Normalize(u, from, to).Some? <==>
              && u.output >= 0 && u.read >= 0 && u.write >= 0 && Uncached(from, u) >= 0
              && u.read + u.write <= MAX
              && (if to.Anthropic? then Uncached(from, u) + u.output <= MAX else Whole(from, u) + u.output <= MAX)
  {
  }

  /** Converting keeps uncached, read, write and output counts, and every counter a 64-bit natural. */
  lemma NormalizeConserves(u: Usage, from: Protocol, to: Protocol)
    requires Fits(u) && Normalize(u, from, to).Some?
    ensures var r := Normalize(u, from, to).value;
            && Uncached(to, r) == Uncached(from, u) && r.read == u.read && r.write == u.write && r.output == u.output
            && Fits(r) && r.input >= 0 && r.output >= 0 && r.read >= 0 && r.write >= 0
  {
  }

  /** There and back is the identity exactly when the whole input plus the output can be represented, or nothing moves. */
  lemma RoundTrip(u: Usage, from: Protocol, to: Protocol)
    requires Fits(u) && Normalize(u, from, to).Some?
    ensures Normalize(Normalize(u, from, to).value, to, from) == Some(u) <==>
              (from.Anthropic? || Whole(from, u) + u.output <= MAX)
  {
    NormalizeConserves(u, from, to);
    var r := Normalize(u, from, to).value;
    NormalizeAccepts(u, from, to);
    NormalizeAccepts(r, to, from);
    if Normalize(r, to, from).Some? {
      NormalizeConserves(r, to, from);
    }
  }

  lemma SensibleRoundTrips(u: Usage, from: Protocol, to: Protocol)
    requires Fits(u) && Sensible(from, u)
    ensures Normalize(u, from, to).Some? && Normalize(Normalize(u, from, to).value, to, from) == Some(u)
  {
    NormalizeAccepts(u, from, to);
    RoundTrip(u, from, to);
  }

  lemma ValidMeans(u: Usage)
    requires Fits(u)
    ensures Valid(u) <==>
              && u.input >= 0 && u.output >= 0 && u.read >= 0 && u.write >= 0
              && u.input + u.output <= MAX && u.read + u.write <= u.input
  {
    if u.input >= 0 && u.output >= 0 && u.read >= 0 && u.write >= 0 {
      CheckedIsExact(u.input, u.output);
      CheckedIsExact(u.read, u.write);
    }
  }

  /** Counters of one report, none of them negative in a report that is accepted. */
  lemma ParseMeans(p: Protocol, u: Usage, total: Option<int>)
    requires Fits(u) && (!p.Anthropic? && total.Some? ==> total.value == Wrap(u.input + u.output))
    ensures Parse(p, u, total).Some? <==> Sensible(p, u)
    ensures Parse(p, u, total).Some? ==> Parse(p, u, total).value == u.(input := Whole(p, u)) && Valid(Parse(p, u, total).value)
  {
    if p.Anthropic? {
      AnthropicParse(u, total);
    } else {
      ValidMeans(u);
    }
  }

  lemma AnthropicParse(u: Usage, total: Option<int>)
    requires Fits(u)
    ensures Parse(Anthropic, u, total).Some? <==> Sensible(Anthropic, u)
    ensures Parse(Anthropic, u, total).Some? ==>
              Parse(Anthropic, u, total).value == u.(input := Whole(Anthropic, u)) && Valid(Parse(Anthropic, u, total).value)
  {
    hide Wrap;
    var sum := CheckedAdd(u.input, u.read);
    var whole := if sum.None? then None else CheckedAdd(sum.value, u.write);
    if u.read >= 0 && u.write >= 0 {
      if u.input >= 0 {
        CheckedIsExact(u.input, u.read);
        if sum.Some? {
          CheckedIsExact(sum.value, u.write);
        }
        if whole.Some? {
          ValidMeans(u.(input := whole.value));
        }
      } else {
        NegativeSum(u.input, u.read);
        NegativeSum(u.input + u.read, u.write);
        if whole.Some? {
          ValidMeans(u.(input := whole.value));
        }
      }
    }
  }

  /** Adding a natural to a smaller number stays exact while the sum is at most the natural bound. */
  lemma NegativeSum(a: int, b: int)
    requires Is64(a) && 0 <= b <= MAX
    ensures a + b <= MAX ==> CheckedAdd(a, b) == Some(a + b)
    ensures a + b > MAX ==> CheckedAdd(a, b) == None
  {
    assert Wrap(MAX - b) == MAX - b;
  }

  /**
   Wherever parse-then-marshal reports a usage the streaming path reports the same one; it
   refuses more only for a cache write the destination cannot express, or a whole total that overflows.
   */
  lemma PathsAgree(u: Usage, total: Option<int>, from: Protocol, to: Protocol)
    requires Fits(u) && (!from.Anthropic? && total.Some? ==> total.value == Wrap(u.input + u.output))
    ensures Translate(u, total, from, to).Some? ==> Normalize(u, from, to) == Translate(u, total, from, to)
    ensures Translate(u, total, from, to).Some? <==>
              Normalize(u, from, to).Some? && Whole(from, u) + u.output <= MAX && !(HidesWrites(to) && u.write != 0)
  {
    hide Wrap, Parse, Normalize, Valid;
    ParseMeans(from, u, total);
    NormalizeAccepts(u, from, to);
    if Normalize(u, from, to).Some? {
      NormalizeConserves(u, from, to);
    }
    var c := Parse(from, u, total);
    if c.Some? {
      ValidMeans(c.value);
      assert Wrap(c.value.input - c.value.read) == c.value.input - c.value.read;
      assert Wrap(c.value.input - c.value.read - c.value.write) == c.value.input - c.value.read - c.value.write;
    }
  }

  /** A report the streaming path carries to Anthropic although its whole total overflows, so it cannot be carried back. */
  lemma OverflowingTotal()
    ensures var u := Usage(MAX, 1, 1, 0);
            && Normalize(u, OpenAIChat, Anthropic) == Some(Usage(MAX - 1, 1, 1, 0))
            && Normalize(Usage(MAX - 1, 1, 1, 0), Anthropic, OpenAIChat) == None
            && Translate(u, None, OpenAIChat, Anthropic) == None
  {
    CheckedIsExact(MAX, 1);
  }
}
