/**
 Pinning a plugin pipeline and draining it (internal/plugin/discovery.go:1441-1471, 1629-1649).

 The three methods that take the mutex, and the locked part of the drain, are atomic; everything
 else interleaves freely: any number of pin holders, any number of drain callers, the once, and
 the goroutine that closes the runtime. Closing a channel twice panics, so `drained` and `closed`
 count their close calls.
 */
module PinDrain {
  /** What the mutex guards, and the channel closed under it. */
  datatype Gate = Gate(active: int, draining: bool, drained: nat)

  function TryAcquired(g: Gate): Gate {
    if g.draining then g else g.(active := g.active + 1)
  }

  function Acquired(g: Gate): Gate {
    g.(active := g.active + 1)
  }

  function Released(g: Gate): Gate {
    var left := g.active - 1;
    g.(active := left, drained := if left == 0 && g.draining then g.drained + 1 else g.drained)
  }

  function DrainBegun(g: Gate): Gate {
    g.(draining := true, drained := if g.active == 0 then g.drained + 1 else g.drained)
  }

  class Pipeline {
    var active: int
    var draining: bool
    var drained: nat

    ghost function Value(): Gate
      reads this
    {
      Gate(active, draining, drained)
    }

    constructor ()
      ensures Value() == Gate(0, false, 0)
    {
      active, draining, drained := 0, false, 0;
    }

    method TryAcquire() returns (ok: bool)
      modifies this
      ensures Value() == TryAcquired(old(Value())) && ok == !old(draining)
    {
      if draining {
        return false;
      }
      active := active + 1;
      return true;
    }

    method Acquire()
      modifies this
      ensures Value() == Acquired(old(Value()))
    {
      active := active + 1;
    }

    method Release()
      modifies this
      ensures Value() == Released(old(Value()))
    {
      active := active - 1;
      if active == 0 && draining {
        drained := drained + 1;
      }
    }

    method BeginDrain()
      modifies this
      ensures Value() == DrainBegun(old(Value()))
    {
      draining := true;
      if active == 0 {
        drained := drained + 1;
      }
    }
  }

  // ----- the protocol -----

  type Id = nat

  /** The once: nobody yet, a caller before or after its locked section, or done. */
  datatype Once = Fresh | Entered(caller: Id) | Marked(caller: Id) | Finished

  /** The goroutine that closes the runtime. */
  datatype Closer = Unborn | Waiting | Closing | Over

  datatype Caller = AtOnce | AtClosed | Returned

  datatype State = State(
    gate: Gate,
    pins: multiset<Id>,
    callers: map<Id, Caller>,
    once: Once,
    closer: Closer,
    runtimeCloses: nat,
    closed: nat)

  const Start: State := State(Gate(0, false, 0), multiset{}, map[], Fresh, Unborn, 0, 0)

  datatype Action =
    | TryAcquire(id: Id)
    | Acquire(id: Id)
    | Release(id: Id)
    | CallDrain(id: Id)
    | EnterOnce(id: Id)
    | MarkDraining(id: Id)
    | SpawnCloser(id: Id)
    | PassOnce(id: Id)
    | CloseRuntime
    | SignalClosed
    | ReturnDrain(id: Id)

  /** When an action can be taken. Acquire itself is not gated. */
  predicate Enabled(s: State, a: Action) {
    match a
    case TryAcquire(_) => true
    case Acquire(_) => true
    case Release(id) => id in s.pins
    case CallDrain(id) => id !in s.callers
    case EnterOnce(id) => id in s.callers && s.callers[id].AtOnce? && s.once.Fresh?
    case MarkDraining(id) => s.once == Entered(id)
    case SpawnCloser(id) => s.once == Marked(id)
    case PassOnce(id) => id in s.callers && s.callers[id].AtOnce? && s.once.Finished?
    case CloseRuntime => s.closer.Waiting? && s.gate.drained > 0
    case SignalClosed => s.closer.Closing?
    case ReturnDrain(id) => id in s.callers && s.callers[id].AtClosed? && s.closed > 0
  }

  function Step(s: State, a: Action): State
    requires Enabled(s, a)
  {
    match a
    case TryAcquire(id) =>
      s.(gate := TryAcquired(s.gate), pins := if s.gate.draining then s.pins else s.pins + multiset{id})
    case Acquire(id) => s.(gate := Acquired(s.gate), pins := s.pins + multiset{id})
    case Release(id) => s.(gate := Released(s.gate), pins := s.pins - multiset{id})
    case CallDrain(id) => s.(callers := s.callers[id := AtOnce])
    case EnterOnce(id) => s.(once := Entered(id))
    case MarkDraining(id) => s.(gate := DrainBegun(s.gate), once := Marked(id))
    case SpawnCloser(id) => s.(closer := Waiting, once := Finished)
    case PassOnce(id) => s.(callers := s.callers[id := AtClosed])
    case CloseRuntime => s.(closer := Closing, runtimeCloses := s.runtimeCloses + 1)
    case SignalClosed => s.(closer := Over, closed := s.closed + 1)
    case ReturnDrain(id) => s.(callers := s.callers[id := Returned])
  }

  /** The discipline of nested calls: Acquire is taken only by a holder of a pin. */
  predicate Nested(s: State, a: Action) {
    a.Acquire? ==> a.id in s.pins
  }

  ghost predicate Reaches(s: State, run: seq<Action>, t: State)
    decreases |run|
  {
    if run == [] then s == t
    else
      var n := |run| - 1;
      exists m :: Reaches(s, run[..n], m) && Enabled(m, run[n]) && Nested(m, run[n]) && Step(m, run[n]) == t
  }

  // ----- what every interleaving keeps -----

  predicate Drained(s: State) {
    s.gate.draining && s.gate.active == 0
  }

  ghost predicate Inv(s: State) {
    && s.gate.active == |s.pins|
    && s.gate.drained == (if Drained(s) then 1 else 0)
    && (s.gate.draining <==> s.once.Marked? || s.once.Finished?)
    && (s.closer.Unborn? <==> !s.once.Finished?)
    && s.runtimeCloses == (if s.closer.Closing? || s.closer.Over? then 1 else 0)
    && (s.runtimeCloses > 0 ==> Drained(s))
    && s.closed == (if s.closer.Over? then 1 else 0)
    && ((s.once.Entered? || s.once.Marked?) ==> s.once.caller in s.callers && s.callers[s.once.caller].AtOnce?)
    && (forall id :: id in s.callers && s.callers[id].AtClosed? ==> s.once.Finished?)
    && (forall id :: id in s.callers && s.callers[id].Returned? ==> s.closed > 0)
  }

  /** The weakest thing the protocol needs of Acquire: not to be called once the pipeline has drained. */
  predicate NotTooLate(s: State, a: Action) {
    a.Acquire? ==> !Drained(s)
  }

  lemma PinCounts(m: multiset<Id>, id: Id)
    ensures |m + multiset{id}| == |m| + 1
    ensures id in m ==> |m| > 0 && |m - multiset{id}| == |m| - 1
  {
    if id in m {
      assert m == (m - multiset{id}) + multiset{id};
    }
  }

  lemma PinStepKeeps(s: State, a: Action)
    requires Inv(s) && Enabled(s, a) && NotTooLate(s, a) && (a.TryAcquire? || a.Acquire? || a.Release?)
    ensures Inv(Step(s, a))
  {
    PinCounts(s.pins, a.id);
  }

  lemma CallerStepKeeps(s: State, a: Action)
    requires Inv(s) && Enabled(s, a) && (a.CallDrain? || a.PassOnce? || a.ReturnDrain?)
    ensures Inv(Step(s, a))
  {
  }

  lemma OnceStepKeeps(s: State, a: Action)
    requires Inv(s) && Enabled(s, a) && (a.EnterOnce? || a.MarkDraining? || a.SpawnCloser?)
    ensures Inv(Step(s, a))
  {
  }

  lemma CloserStepKeeps(s: State, a: Action)
    requires Inv(s) && Enabled(s, a) && (a.CloseRuntime? || a.SignalClosed?)
    ensures Inv(Step(s, a))
  {
  }

  lemma StepKeeps(s: State, a: Action)
    requires Inv(s) && Enabled(s, a) && NotTooLate(s, a)
    ensures Inv(Step(s, a))
  {
    hide *;
    match a
    case TryAcquire(_) => PinStepKeeps(s, a);
    case Acquire(_) => PinStepKeeps(s, a);
    case Release(_) => PinStepKeeps(s, a);
    case CallDrain(_) => CallerStepKeeps(s, a);
    case EnterOnce(_) => OnceStepKeeps(s, a);
    case MarkDraining(_) => OnceStepKeeps(s, a);
    case SpawnCloser(_) => OnceStepKeeps(s, a);
    case PassOnce(_) => CallerStepKeeps(s, a);
    case CloseRuntime => CloserStepKeeps(s, a);
    case SignalClosed => CloserStepKeeps(s, a);
    case ReturnDrain(_) => CallerStepKeeps(s, a);
  }

  lemma NestedIsInTime(s: State, a: Action)
    requires Inv(s) && Nested(s, a)
    ensures NotTooLate(s, a)
  {
    if a.Acquire? {
      assert |s.pins| >= s.pins[a.id] by { Holds(s.pins, a.id); }
    }
  }

  lemma Holds(m: multiset<Id>, id: Id)
    requires id in m
    ensures |m| > 0
  {
    assert m == (m - multiset{id}) + multiset{id};
  }

  /** In every state any interleaving reaches: pins are counted, the channels close once, and only when they should. */
  lemma {:induction false} EveryRunIsSafe(run: seq<Action>, s: State)
    requires Reaches(Start, run, s)
    ensures Inv(s)
    decreases |run|
  {
    if run != [] {
      var n := |run| - 1;
      var m :| Reaches(Start, run[..n], m) && Enabled(m, run[n]) && Nested(m, run[n]) && Step(m, run[n]) == s;
      EveryRunIsSafe(run[..n], m);
      NestedIsInTime(m, run[n]);
      StepKeeps(m, run[n]);
    }
  }

  /** Once the runtime is closed nobody holds a pin, and no step grants one. */
  lemma NoPinAfterClose(run: seq<Action>, s: State, a: Action)
    requires Reaches(Start, run, s) && s.runtimeCloses > 0
    requires Enabled(s, a) && Nested(s, a)
    ensures s.runtimeCloses == 1 && s.pins == multiset{} && Step(s, a).pins == multiset{} && Step(s, a).runtimeCloses == 1
  {
    EveryRunIsSafe(run, s);
    NestedIsInTime(s, a);
    StepKeeps(s, a);
    NoneHeld(s.pins);
    NoneHeld(Step(s, a).pins);
  }

  lemma NoneHeld(m: multiset<Id>)
    ensures |m| == 0 <==> m == multiset{}
  {
  }

  /** A caller returns only after the runtime has been closed, and the runtime is closed only once drained. */
  lemma ReturnMeansClosed(run: seq<Action>, s: State, id: Id)
    requires Reaches(Start, run, s) && id in s.callers && s.callers[id].Returned?
    ensures s.runtimeCloses == 1 && Drained(s) && s.pins == multiset{}
  {
    EveryRunIsSafe(run, s);
    NoneHeld(s.pins);
  }

  // ----- the drain finishes -----

  function Left(c: Caller): nat {
    match c
    case AtOnce => 2
    case AtClosed => 1
    case Returned => 0
  }

  /** How many drain steps remain for one caller to return. */
  function Remaining(s: State, id: Id): nat
    requires id in s.callers
  {
    Left(s.callers[id])
    + (match s.once case Fresh => 3 case Entered(_) => 2 case Marked(_) => 1 case Finished => 0)
    + (match s.closer case Unborn => 2 case Waiting => 2 case Closing => 1 case Over => 0)
  }

  predicate IsDrainStep(a: Action) {
    !a.TryAcquire? && !a.Acquire? && !a.Release? && !a.CallDrain?
  }

  /**
   A waiting caller is never stuck: with every pin released some step of the drain can be taken,
   and it brings the caller closer to returning.
   */
  lemma DrainProgresses(run: seq<Action>, s: State, id: Id) returns (a: Action)
    requires Reaches(Start, run, s) && id in s.callers && !s.callers[id].Returned? && s.pins == multiset{}
    ensures IsDrainStep(a) && Enabled(s, a) && id in Step(s, a).callers && Remaining(Step(s, a), id) < Remaining(s, id)
    ensures Step(s, a).pins == multiset{}
  {
    EveryRunIsSafe(run, s);
    match s.once
    case Fresh => a := EnterOnce(id);
    case Entered(first) => a := MarkDraining(first);
    case Marked(first) => a := SpawnCloser(first);
    case Finished =>
      if s.callers[id].AtOnce? {
        a := PassOnce(id);
      } else {
        match s.closer
        case Waiting => a := CloseRuntime;
        case Closing => a := SignalClosed;
        case Over => a := ReturnDrain(id);
      }
  }

  lemma Extend(run: seq<Action>, s: State, a: Action)
    requires Reaches(Start, run, s) && Enabled(s, a) && Nested(s, a)
    ensures Reaches(Start, run + [a], Step(s, a))
  {
    hide Enabled, Step, Nested;
    var more := run + [a];
    assert more[..|more| - 1] == run && more[|more| - 1] == a;
  }

  /** Hence the caller returns within that many drain steps. */
  lemma {:induction false} DrainFinishes(run: seq<Action>, s: State, id: Id) returns (rest: seq<Action>, t: State)
    requires Reaches(Start, run, s) && id in s.callers && s.pins == multiset{}
    ensures Reaches(Start, run + rest, t) && id in t.callers && t.callers[id].Returned? && |rest| <= Remaining(s, id)
    ensures forall i :: 0 <= i < |rest| ==> IsDrainStep(rest[i])
    decreases Remaining(s, id)
  {
    hide Reaches, Step, Enabled, Remaining;
    if s.callers[id].Returned? {
      rest, t := [], s;
      assert run + rest == run;
    } else {
      var a := DrainProgresses(run, s, id);
      Extend(run, s, a);
      var more, u := DrainFinishes(run + [a], Step(s, a), id);
      rest, t := [a] + more, u;
      assert run + rest == run + [a] + more;
    }
  }

  // ----- why Acquire must be nested -----

  /** Acquire after draining, by anyone, closes the drained channel a second time when it is released. */
  lemma LateAcquirePanics(s: State, id: Id)
    requires Inv(s) && Drained(s)
    ensures var t := Step(s, Acquire(id)); Enabled(t, Release(id)) && Step(t, Release(id)).gate.drained == 2
  {
    var t := Step(s, Acquire(id));
    assert t.pins == s.pins + multiset{id};
  }

  /** So the invariant survives an Acquire and its Release exactly when the Acquire is not too late. */
  lemma SafeExactlyInTime(s: State, id: Id)
    requires Inv(s)
    ensures var t := Step(s, Acquire(id));
            && Enabled(t, Release(id))
            && (Inv(Step(t, Release(id))) <==> NotTooLate(s, Acquire(id)))
  {
    var t := Step(s, Acquire(id));
    assert id in t.pins;
    if Drained(s) {
      LateAcquirePanics(s, id);
    } else {
      StepKeeps(s, Acquire(id));
      StepKeeps(t, Release(id));
    }
  }

  /** A concrete interleaving that is not nested: drain an idle pipeline, acquire, release. */
  lemma UnpinnedAcquireBreaks()
    ensures var t := Step(DrainedIdle(), Acquire(1)); Enabled(t, Release(1)) && Step(t, Release(1)).gate.drained == 2
  {
    assert DrainedIdle().gate == Gate(0, true, 1);
    var t := Step(DrainedIdle(), Acquire(1));
    assert t.gate == Gate(1, true, 1) && 1 in t.pins;
  }

  function DrainedIdle(): State {
    var s1 := Step(Start, CallDrain(0));
    var s2 := Step(s1, EnterOnce(0));
    Step(s2, MarkDraining(0))
  }
}
