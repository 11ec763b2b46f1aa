/**
 Exactly what the stream policy accepts (internal/plugin/stream_policy.go:65-448), said of the
 differences between two message trees. A path names a place in a message; `Differs` says that two
 messages differ there, `Carries` that a message carries something there. One message may replace
 another exactly when every difference between them is allowed, and what is allowed depends on the
 policies along the path and on the grants alone; a value that comes or goes is also judged by
 everything inside it.
 */
module StreamEdits {
  import opened StreamPolicy

  /** A place in a message: the message itself, a field, a list element, or a place under one of these. */
  datatype Path =
    | Itself
    | Here(field: nat)
    | Item(field: nat, index: nat)
    | Under(field: nat, rest: Path)
    | UnderItem(field: nat, index: nat, rest: Path)

  predicate Registered(schema: Schema, t: string, i: nat) {
    t in schema && i < |schema[t]|
  }

  /** The field shows: a list that is not empty, or a value that is set and, unless the field records presence, not the default. */
  predicate Shown(f: Field, v: Value) {
    if f.isList then v.Many? && v.items != [] else v != Absent && (v == Scalar(f.default) ==> f.hasPresence)
  }

  /** A field that holds one message, and one that holds a list of them. */
  predicate HoldsMessage(f: Field) {
    !f.isList && f.subtype.Some?
  }

  predicate HoldsMessages(f: Field) {
    f.isList && f.subtype.Some?
  }

  // ----- what a message carries -----

  /** The message carries something at the path: unknown bytes or a type nobody registered, or a field that shows. */
  predicate Carries(schema: Schema, t: string, m: Message, q: Path)
    decreases q
  {
    m.valid &&
    match q
    case Itself => m.unknown != "" || t !in schema
    case Here(i) => Registered(schema, t, i) && Shown(schema[t][i], At(m, i))
    case Item(_, _) => false
    case Under(i, rest) =>
      && Registered(schema, t, i) && HoldsMessage(schema[t][i]) && At(m, i).Sub?
      && Carries(schema, schema[t][i].subtype.value, At(m, i).message, rest)
    case UnderItem(i, k, rest) =>
      && Registered(schema, t, i) && HoldsMessages(schema[t][i]) && k < |Items(At(m, i))| && Items(At(m, i))[k].Sub?
      && Carries(schema, schema[t][i].subtype.value, Items(At(m, i))[k].message, rest)
  }

  /**
   The grants let something at the path come or go: nothing unknown, nothing host-owned, a section
   only where it is granted, no list of scalars; and below a bound signature anything.
   */
  predicate MayCarry(schema: Schema, g: Grants, t: string, q: Path)
    decreases q
  {
    match q
    case Itself => false
    case Here(i) =>
      && Registered(schema, t, i)
      && var f := schema[t][i];
         f.policy.BoundSignature? ||
         (&& !f.policy.HostOwned? && !f.policy.Unclassified? && (f.isList ==> f.subtype.Some?)
          && (f.policy.Charged? ==> g(f.policy.section)))
    case Item(_, _) => false
    case Under(i, rest) =>
      && Registered(schema, t, i) && schema[t][i].subtype.Some?
      && (schema[t][i].policy.BoundSignature? || MayCarry(schema, g, schema[t][i].subtype.value, rest))
    case UnderItem(i, _, rest) =>
      && Registered(schema, t, i) && schema[t][i].subtype.Some?
      && (schema[t][i].policy.BoundSignature? || MayCarry(schema, g, schema[t][i].subtype.value, rest))
  }

  /** The whole message may come or go. */
  ghost predicate CanCome(schema: Schema, g: Grants, t: string, m: Message) {
    forall q :: Carries(schema, t, m, q) ==> MayCarry(schema, g, t, q)
  }

  predicate InField(q: Path, i: nat) {
    !q.Itself? && q.field == i
  }

  /** What the message carries in its i-th field may come or go. */
  ghost predicate FieldCanCome(schema: Schema, g: Grants, t: string, m: Message, i: nat) {
    forall q :: InField(q, i) && Carries(schema, t, m, q) ==> MayCarry(schema, g, t, q)
  }

  lemma {:induction false} PresentAllows(schema: Schema, g: Grants, t: string, m: Message, q: Path)
    requires MessagePresent(schema, g, t, m) && Carries(schema, t, m, q)
    ensures MayCarry(schema, g, t, q)
    decreases q
  {
    if !q.Itself? {
      FieldAllows(schema, g, t, m, q.field, q);
    }
  }

  lemma {:induction false} FieldAllows(schema: Schema, g: Grants, t: string, m: Message, i: nat, q: Path)
    requires InField(q, i) && Carries(schema, t, m, q)
    requires Registered(schema, t, i) && Material(schema[t][i], At(m, i)) ==> ChangedPresent(schema, g, schema[t][i], At(m, i))
    ensures MayCarry(schema, g, t, q)
    decreases q, 0
  {
    var f, v := schema[t][i], At(m, i);
    match q
    case Here(_) =>
    case Under(_, rest) =>
      if !f.policy.BoundSignature? {
        assert Material(f, v) && RecursePresent(schema, g, f, v) && ItemPresent(schema, g, f.subtype.value, v);
        PresentAllows(schema, g, f.subtype.value, v.message, rest);
      }
    case UnderItem(_, k, rest) =>
      if !f.policy.BoundSignature? {
        assert Material(f, v) && RecursePresent(schema, g, f, v) && ItemPresent(schema, g, f.subtype.value, v.items[k]);
        PresentAllows(schema, g, f.subtype.value, v.items[k].message, rest);
      }
  }

  lemma {:induction false} PresentFrom(schema: Schema, g: Grants, t: string, m: Message)
    requires CanCome(schema, g, t, m)
    ensures MessagePresent(schema, g, t, m)
    decreases m, 2
  {
    if m.valid {
      assert !Carries(schema, t, m, Itself);
      forall i | 0 <= i < |schema[t]| && i < |m.fields| && Material(schema[t][i], m.fields[i])
        ensures ChangedPresent(schema, g, schema[t][i], m.fields[i])
      {
        FieldFrom(schema, g, t, m, i);
      }
    }
  }

  lemma {:induction false} FieldFrom(schema: Schema, g: Grants, t: string, m: Message, i: nat)
    requires m.valid && Registered(schema, t, i) && Material(schema[t][i], At(m, i)) && FieldCanCome(schema, g, t, m, i)
    ensures ChangedPresent(schema, g, schema[t][i], At(m, i))
    decreases m, 1
  {
    hide MessagePresent;
    var f, v := schema[t][i], At(m, i);
    assert Carries(schema, t, m, Here(i)) && InField(Here(i), i);
    if !f.policy.BoundSignature? {
      if f.isList {
        forall k | 0 <= k < |v.items| && v.items[k].Sub?
          ensures MessagePresent(schema, g, f.subtype.value, v.items[k].message)
        {
          ElementFrom(schema, g, t, m, i, k);
        }
      } else if f.subtype.Some? && v.Sub? {
        MessageFrom(schema, g, t, m, i);
      }
      assert RecursePresent(schema, g, f, v);
    }
  }

  lemma {:induction false} MessageFrom(schema: Schema, g: Grants, t: string, m: Message, i: nat)
    requires m.valid && Registered(schema, t, i) && HoldsMessage(schema[t][i]) && At(m, i).Sub?
    requires !schema[t][i].policy.BoundSignature? && FieldCanCome(schema, g, t, m, i)
    ensures MessagePresent(schema, g, schema[t][i].subtype.value, At(m, i).message)
    decreases m, 0
  {
    var sub, inner := schema[t][i].subtype.value, At(m, i).message;
    forall rest | Carries(schema, sub, inner, rest) ensures MayCarry(schema, g, sub, rest) {
      assert Carries(schema, t, m, Under(i, rest)) && InField(Under(i, rest), i);
      assert MayCarry(schema, g, t, Under(i, rest));
    }
    PresentFrom(schema, g, sub, inner);
  }

  lemma {:induction false} ElementFrom(schema: Schema, g: Grants, t: string, m: Message, i: nat, k: nat)
    requires m.valid && Registered(schema, t, i) && HoldsMessages(schema[t][i]) && k < |Items(At(m, i))| && Items(At(m, i))[k].Sub?
    requires !schema[t][i].policy.BoundSignature? && FieldCanCome(schema, g, t, m, i)
    ensures MessagePresent(schema, g, schema[t][i].subtype.value, Items(At(m, i))[k].message)
    decreases m, 0
  {
    var sub, inner := schema[t][i].subtype.value, Items(At(m, i))[k].message;
    forall rest | Carries(schema, sub, inner, rest) ensures MayCarry(schema, g, sub, rest) {
      assert Carries(schema, t, m, UnderItem(i, k, rest)) && InField(UnderItem(i, k, rest), i);
      assert MayCarry(schema, g, t, UnderItem(i, k, rest));
    }
    PresentFrom(schema, g, sub, inner);
  }

  /** A message may come or go exactly when everything it carries, at any depth, may. */
  lemma PresentExactly(schema: Schema, g: Grants, t: string, m: Message)
    ensures MessagePresent(schema, g, t, m) <==> CanCome(schema, g, t, m)
  {
    if MessagePresent(schema, g, t, m) {
      forall q | Carries(schema, t, m, q) ensures MayCarry(schema, g, t, q) {
        PresentAllows(schema, g, t, m, q);
      }
    }
    if CanCome(schema, g, t, m) {
      PresentFrom(schema, g, t, m);
    }
  }

  lemma FieldExactly(schema: Schema, g: Grants, t: string, m: Message, i: nat)
    requires m.valid && Registered(schema, t, i) && Material(schema[t][i], At(m, i))
    ensures ChangedPresent(schema, g, schema[t][i], At(m, i)) <==> FieldCanCome(schema, g, t, m, i)
  {
    hide ChangedPresent, Carries, MayCarry;
    if ChangedPresent(schema, g, schema[t][i], At(m, i)) {
      forall q | InField(q, i) && Carries(schema, t, m, q) ensures MayCarry(schema, g, t, q) {
        FieldAllows(schema, g, t, m, i, q);
      }
    }
    if FieldCanCome(schema, g, t, m, i) {
      FieldFrom(schema, g, t, m, i);
    }
  }

  // ----- where two messages differ -----

  /** A field judged as a whole when it is present on both sides: its policy is about the value, or the value has no parts. */
  predicate Whole(f: Field) {
    f.policy.HostOwned? || f.policy.BoundSignature? || f.policy.Unclassified? || f.subtype.None? || (f.policy.Charged? && f.isList)
  }

  /** The field is present on both sides, differs, and is judged by its parts. */
  predicate Opened(schema: Schema, t: string, a: Message, b: Message, i: nat) {
    && Registered(schema, t, i) && !Whole(schema[t][i])
    && Shown(schema[t][i], At(a, i)) && Shown(schema[t][i], At(b, i)) && At(a, i) != At(b, i)
  }

  predicate Differs(schema: Schema, t: string, a: Message, b: Message, q: Path)
    decreases q
  {
    if !a.valid && !b.valid then false
    else if !a.valid || !b.valid then q == Itself
    else
      match q
      case Itself => a.unknown != b.unknown || t !in schema
      case Here(i) =>
        && Registered(schema, t, i)
        && var f, x, y := schema[t][i], At(a, i), At(b, i);
           Shown(f, x) != Shown(f, y) || (Shown(f, x) && x != y && Whole(f))
      case Item(i, k) =>
        && Opened(schema, t, a, b, i) && schema[t][i].isList
        && (k < |Items(At(a, i))|) != (k < |Items(At(b, i))|)
      case Under(i, rest) =>
        && Opened(schema, t, a, b, i) && !schema[t][i].isList
        && Differs(schema, schema[t][i].subtype.value, Inner(At(a, i)), Inner(At(b, i)), rest)
      case UnderItem(i, k, rest) =>
        && Opened(schema, t, a, b, i) && schema[t][i].isList && k < |Items(At(a, i))| && k < |Items(At(b, i))|
        && Differs(schema, schema[t][i].subtype.value, Inner(Items(At(a, i))[k]), Inner(Items(At(b, i))[k]), rest)
  }

  /** The difference at the path is one the grants allow. */
  ghost predicate Allowed(schema: Schema, g: Grants, t: string, a: Message, b: Message, q: Path)
    decreases q
  {
    match q
    case Itself => a.valid != b.valid && CanCome(schema, g, t, if a.valid then a else b)
    case Here(i) =>
      && Registered(schema, t, i)
      && var f, x, y := schema[t][i], At(a, i), At(b, i);
         if Shown(f, x) && Shown(f, y) then
           f.policy.BoundSignature? || (f.policy.Charged? && f.subtype.None? && g(f.policy.section))
         else FieldCanCome(schema, g, t, if Shown(f, x) then a else b, i)
    case Item(i, k) =>
      && Registered(schema, t, i) && schema[t][i].subtype.Some? && !schema[t][i].policy.FixedContainer?
      && var x, y := Items(At(a, i)), Items(At(b, i));
         CanCome(schema, g, schema[t][i].subtype.value, Inner(if k < |x| then x[k] else if k < |y| then y[k] else Absent))
    case Under(i, rest) =>
      && Registered(schema, t, i) && schema[t][i].subtype.Some?
      && Allowed(schema, g, schema[t][i].subtype.value, Inner(At(a, i)), Inner(At(b, i)), rest)
    case UnderItem(i, k, rest) =>
      && Registered(schema, t, i) && schema[t][i].subtype.Some? && k < |Items(At(a, i))| && k < |Items(At(b, i))|
      && Allowed(schema, g, schema[t][i].subtype.value, Inner(Items(At(a, i))[k]), Inner(Items(At(b, i))[k]), rest)
  }

  ghost predicate AllAllowed(schema: Schema, g: Grants, t: string, a: Message, b: Message) {
    forall q :: Differs(schema, t, a, b, q) ==> Allowed(schema, g, t, a, b, q)
  }

  lemma InnerIs(schema: Schema, g: Grants, t: string, x: Value, y: Value)
    ensures InnerOk(schema, g, t, x, y) <==> MessageOk(schema, g, t, Inner(x), Inner(y))
  {
  }

  lemma ItemIs(schema: Schema, g: Grants, t: string, x: Value)
    ensures ItemPresent(schema, g, t, x) <==> CanCome(schema, g, t, Inner(x))
  {
    hide CanCome, MessagePresent;
    PresentExactly(schema, g, t, Inner(x));
    InvalidPresent(schema, g, t);
  }

  lemma InvalidPresent(schema: Schema, g: Grants, t: string)
    ensures MessagePresent(schema, g, t, INVALID)
  {
  }

  /** The verdict on one field of two valid messages. */
  ghost predicate FieldVerdict(schema: Schema, g: Grants, t: string, a: Message, b: Message, i: nat)
    requires Registered(schema, t, i)
  {
    FieldOk(schema, g, schema[t][i], At(a, i), At(b, i))
  }

  lemma MessageByFields(schema: Schema, g: Grants, t: string, a: Message, b: Message)
    requires a.valid && b.valid
    ensures MessageOk(schema, g, t, a, b) <==>
              a.unknown == b.unknown && t in schema && forall i :: 0 <= i < |schema[t]| ==> FieldVerdict(schema, g, t, a, b, i)
  {
    hide ChangedPresent, ChangedBoth;
    if t in schema {
      forall i | 0 <= i < |schema[t]|
        ensures FieldVerdict(schema, g, t, a, b, i) <==>
                  if i < |a.fields| then FieldOk(schema, g, schema[t][i], a.fields[i], At(b, i))
                  else Material(schema[t][i], At(b, i)) ==> ChangedPresent(schema, g, schema[t][i], At(b, i))
      {
      }
    }
  }

  /** A field judged by its parts: the message it holds, or its elements one by one and the surplus on either side. */
  lemma OpenedVerdict(schema: Schema, g: Grants, t: string, a: Message, b: Message, i: nat)
    requires Opened(schema, t, a, b, i)
    ensures var f, x, y := schema[t][i], At(a, i), At(b, i);
            FieldVerdict(schema, g, t, a, b, i) <==>
              if !f.isList then MessageOk(schema, g, f.subtype.value, Inner(x), Inner(y))
              else
                && (f.policy.FixedContainer? ==> |Items(x)| == |Items(y)|)
                && (forall k :: 0 <= k < |Items(x)| && k < |Items(y)| ==> InnerOk(schema, g, f.subtype.value, Items(x)[k], Items(y)[k]))
                && (forall k :: |Items(y)| <= k < |Items(x)| ==> ItemPresent(schema, g, f.subtype.value, Items(x)[k]))
                && (forall k :: |Items(x)| <= k < |Items(y)| ==> ItemPresent(schema, g, f.subtype.value, Items(y)[k]))
  {
    hide MessageOk, ItemPresent, InnerOk;
    var f, x, y := schema[t][i], At(a, i), At(b, i);
    InnerIs(schema, g, f.subtype.value, x, y);
    assert FieldVerdict(schema, g, t, a, b, i) <==> ChangedBoth(schema, g, f, x, y);
    if f.policy.Charged? {
      assert ChangedBoth(schema, g, f, x, y) <==> InnerOk(schema, g, f.subtype.value, x, y);
    } else {
      assert ChangedBoth(schema, g, f, x, y) <==>
               (f.policy.FixedContainer? && f.isList ==> |Items(x)| == |Items(y)|) && ContainerOk(schema, g, f, x, y);
    }
  }

  lemma WholeVerdict(schema: Schema, g: Grants, t: string, a: Message, b: Message, i: nat)
    requires Registered(schema, t, i) && Whole(schema[t][i])
    requires Material(schema[t][i], At(a, i)) && Material(schema[t][i], At(b, i)) && At(a, i) != At(b, i)
    ensures var f := schema[t][i];
            FieldVerdict(schema, g, t, a, b, i) <==>
              f.policy.BoundSignature? || (f.policy.Charged? && f.subtype.None? && g(f.policy.section))
  {
    hide InnerOk, MessageOk;
    var f, x, y := schema[t][i], At(a, i), At(b, i);
    assert FieldVerdict(schema, g, t, a, b, i) <==> ChangedBoth(schema, g, f, x, y);
    assert f.subtype.None? ==> !ContainerOk(schema, g, f, x, y);
  }

  // ----- accepted, so every difference is allowed -----

  lemma {:induction false} OkAllows(schema: Schema, g: Grants, t: string, a: Message, b: Message, q: Path)
    requires MessageOk(schema, g, t, a, b) && Differs(schema, t, a, b, q)
    ensures Allowed(schema, g, t, a, b, q)
    decreases q
  {
    if !a.valid || !b.valid {
      hide CanCome;
      PresentExactly(schema, g, t, if a.valid then a else b);
    } else {
      MessageByFields(schema, g, t, a, b);
      if !q.Itself? {
        var i := q.field;
        assert FieldVerdict(schema, g, t, a, b, i);
        match q
        case Here(_) => OkAllowsHere(schema, g, t, a, b, i);
        case Item(_, k) => OkAllowsItem(schema, g, t, a, b, i, k);
        case Under(_, rest) =>
          OpenedVerdict(schema, g, t, a, b, i);
          OkAllows(schema, g, schema[t][i].subtype.value, Inner(At(a, i)), Inner(At(b, i)), rest);
        case UnderItem(_, k, rest) =>
          OpenedVerdict(schema, g, t, a, b, i);
          InnerIs(schema, g, schema[t][i].subtype.value, Items(At(a, i))[k], Items(At(b, i))[k]);
          OkAllows(schema, g, schema[t][i].subtype.value, Inner(Items(At(a, i))[k]), Inner(Items(At(b, i))[k]), rest);
      }
    }
  }

  lemma OkAllowsHere(schema: Schema, g: Grants, t: string, a: Message, b: Message, i: nat)
    requires a.valid && b.valid && Registered(schema, t, i) && FieldVerdict(schema, g, t, a, b, i) && Differs(schema, t, a, b, Here(i))
    ensures Allowed(schema, g, t, a, b, Here(i))
  {
    hide FieldCanCome, MessageOk, InnerOk, ChangedPresent;
    var f := schema[t][i];
    if Material(f, At(a, i)) && !Material(f, At(b, i)) {
      FieldExactly(schema, g, t, a, i);
    } else if !Material(f, At(a, i)) && Material(f, At(b, i)) {
      FieldExactly(schema, g, t, b, i);
    } else {
      WholeVerdict(schema, g, t, a, b, i);
    }
  }

  lemma OkAllowsItem(schema: Schema, g: Grants, t: string, a: Message, b: Message, i: nat, k: nat)
    requires a.valid && b.valid && Registered(schema, t, i) && FieldVerdict(schema, g, t, a, b, i) && Differs(schema, t, a, b, Item(i, k))
    ensures Allowed(schema, g, t, a, b, Item(i, k))
  {
    hide CanCome, FieldVerdict, InnerOk, ItemPresent;
    OpenedVerdict(schema, g, t, a, b, i);
    var x, y, sub := Items(At(a, i)), Items(At(b, i)), schema[t][i].subtype.value;
    if k < |x| {
      ItemIs(schema, g, sub, x[k]);
    } else {
      ItemIs(schema, g, sub, y[k]);
    }
  }

  // ----- every difference allowed, so accepted -----

  lemma {:induction false} OkFrom(schema: Schema, g: Grants, t: string, a: Message, b: Message)
    requires AllAllowed(schema, g, t, a, b)
    ensures MessageOk(schema, g, t, a, b)
    decreases a, 2
  {
    hide CanCome;
    if !a.valid || !b.valid {
      if a.valid || b.valid {
        assert Differs(schema, t, a, b, Itself);
        PresentExactly(schema, g, t, if a.valid then a else b);
      }
    } else {
      assert !Allowed(schema, g, t, a, b, Itself);
      assert !Differs(schema, t, a, b, Itself);
      forall i | 0 <= i < |schema[t]| ensures FieldVerdict(schema, g, t, a, b, i) {
        FieldOkFrom(schema, g, t, a, b, i);
      }
      MessageByFields(schema, g, t, a, b);
    }
  }

  lemma {:induction false} FieldOkFrom(schema: Schema, g: Grants, t: string, a: Message, b: Message, i: nat)
    requires a.valid && b.valid && Registered(schema, t, i) && AllAllowed(schema, g, t, a, b)
    ensures FieldVerdict(schema, g, t, a, b, i)
    decreases a, 1
  {
    if Opened(schema, t, a, b, i) {
      hide FieldVerdict, AllAllowed, Differs, Allowed;
      OpenedVerdict(schema, g, t, a, b, i);
      if schema[t][i].isList {
        ElementsOkFrom(schema, g, t, a, b, i);
      } else {
        UnderOkFrom(schema, g, t, a, b, i);
      }
    } else {
      WholeOkFrom(schema, g, t, a, b, i);
    }
  }

  lemma WholeOkFrom(schema: Schema, g: Grants, t: string, a: Message, b: Message, i: nat)
    requires a.valid && b.valid && Registered(schema, t, i) && AllAllowed(schema, g, t, a, b) && !Opened(schema, t, a, b, i)
    ensures FieldVerdict(schema, g, t, a, b, i)
  {
    hide FieldCanCome, ChangedPresent, MessageOk, InnerOk, ContainerOk;
    var f, x, y := schema[t][i], At(a, i), At(b, i);
    assert Differs(schema, t, a, b, Here(i)) ==> Allowed(schema, g, t, a, b, Here(i));
    if Material(f, x) && !Material(f, y) {
      FieldExactly(schema, g, t, a, i);
    } else if !Material(f, x) && Material(f, y) {
      FieldExactly(schema, g, t, b, i);
    } else if Material(f, x) && x != y {
      WholeVerdict(schema, g, t, a, b, i);
    }
  }

  lemma {:induction false} UnderOkFrom(schema: Schema, g: Grants, t: string, a: Message, b: Message, i: nat)
    requires a.valid && b.valid && Opened(schema, t, a, b, i) && !schema[t][i].isList && AllAllowed(schema, g, t, a, b)
    ensures MessageOk(schema, g, schema[t][i].subtype.value, Inner(At(a, i)), Inner(At(b, i)))
    decreases a, 0
  {
    var sub, x, y := schema[t][i].subtype.value, Inner(At(a, i)), Inner(At(b, i));
    forall rest | Differs(schema, sub, x, y, rest) ensures Allowed(schema, g, sub, x, y, rest) {
      assert Differs(schema, t, a, b, Under(i, rest));
      assert Allowed(schema, g, t, a, b, Under(i, rest));
    }
    if At(a, i).Sub? {
      OkFrom(schema, g, sub, x, y);
    } else {
      AbsentOkFrom(schema, g, sub, y);
    }
  }

  lemma AbsentOkFrom(schema: Schema, g: Grants, t: string, b: Message)
    requires AllAllowed(schema, g, t, INVALID, b)
    ensures MessageOk(schema, g, t, INVALID, b)
  {
    hide CanCome;
    if b.valid {
      assert Differs(schema, t, INVALID, b, Itself);
      PresentExactly(schema, g, t, b);
    }
  }

  lemma {:induction false} ElementsOkFrom(schema: Schema, g: Grants, t: string, a: Message, b: Message, i: nat)
    requires a.valid && b.valid && Opened(schema, t, a, b, i) && schema[t][i].isList && AllAllowed(schema, g, t, a, b)
    ensures var f, x, y := schema[t][i], Items(At(a, i)), Items(At(b, i));
            && (f.policy.FixedContainer? ==> |x| == |y|)
            && (forall k :: 0 <= k < |x| && k < |y| ==> InnerOk(schema, g, f.subtype.value, x[k], y[k]))
            && (forall k :: |y| <= k < |x| ==> ItemPresent(schema, g, f.subtype.value, x[k]))
            && (forall k :: |x| <= k < |y| ==> ItemPresent(schema, g, f.subtype.value, y[k]))
    decreases a, 0, 1
  {
    hide InnerOk, ItemPresent, AllAllowed, Allowed, Differs;
    var f, x, y := schema[t][i], Items(At(a, i)), Items(At(b, i));
    forall k | 0 <= k < |x| && k < |y| ensures InnerOk(schema, g, f.subtype.value, x[k], y[k]) {
      ElementOkFrom(schema, g, t, a, b, i, k);
    }
    forall k | |y| <= k < |x| ensures ItemPresent(schema, g, f.subtype.value, x[k]) {
      SurplusOkFrom(schema, g, t, a, b, i, k);
    }
    forall k | |x| <= k < |y| ensures ItemPresent(schema, g, f.subtype.value, y[k]) {
      SurplusOkFrom(schema, g, t, a, b, i, k);
    }
    if |x| != |y| {
      SurplusOkFrom(schema, g, t, a, b, i, if |x| < |y| then |x| else |y|);
    }
  }

  lemma SurplusOkFrom(schema: Schema, g: Grants, t: string, a: Message, b: Message, i: nat, k: nat)
    requires a.valid && b.valid && Opened(schema, t, a, b, i) && schema[t][i].isList && AllAllowed(schema, g, t, a, b)
    requires (k < |Items(At(a, i))|) != (k < |Items(At(b, i))|)
    ensures !schema[t][i].policy.FixedContainer?
    ensures var x, y := Items(At(a, i)), Items(At(b, i));
            ItemPresent(schema, g, schema[t][i].subtype.value, if k < |x| then x[k] else y[k])
  {
    hide CanCome, ItemPresent;
    var x, y := Items(At(a, i)), Items(At(b, i));
    assert Differs(schema, t, a, b, Item(i, k));
    assert Allowed(schema, g, t, a, b, Item(i, k));
    ItemIs(schema, g, schema[t][i].subtype.value, if k < |x| then x[k] else y[k]);
  }

  lemma {:induction false} ElementOkFrom(schema: Schema, g: Grants, t: string, a: Message, b: Message, i: nat, k: nat)
    requires a.valid && b.valid && Opened(schema, t, a, b, i) && schema[t][i].isList && AllAllowed(schema, g, t, a, b)
    requires k < |Items(At(a, i))| && k < |Items(At(b, i))|
    ensures InnerOk(schema, g, schema[t][i].subtype.value, Items(At(a, i))[k], Items(At(b, i))[k])
    decreases a, 0, 0
  {
    var sub, x, y := schema[t][i].subtype.value, Inner(Items(At(a, i))[k]), Inner(Items(At(b, i))[k]);
    forall rest | Differs(schema, sub, x, y, rest) ensures Allowed(schema, g, sub, x, y, rest) {
      assert Differs(schema, t, a, b, UnderItem(i, k, rest));
      assert Allowed(schema, g, t, a, b, UnderItem(i, k, rest));
    }
    InnerIs(schema, g, sub, Items(At(a, i))[k], Items(At(b, i))[k]);
    if Items(At(a, i))[k].Sub? {
      OkFrom(schema, g, sub, x, y);
    } else {
      AbsentOkFrom(schema, g, sub, y);
    }
  }

  /** One message may replace another exactly when every difference between them is allowed. */
  lemma AcceptedExactly(schema: Schema, g: Grants, t: string, a: Message, b: Message)
    ensures MessageOk(schema, g, t, a, b) <==> AllAllowed(schema, g, t, a, b)
  {
    hide MessageOk, Differs, Allowed;
    if MessageOk(schema, g, t, a, b) {
      forall q | Differs(schema, t, a, b, q) ensures Allowed(schema, g, t, a, b, q) {
        OkAllows(schema, g, t, a, b, q);
      }
    }
    if AllAllowed(schema, g, t, a, b) {
      OkFrom(schema, g, t, a, b);
    }
  }

  // ----- one value changed in place -----

  /** The path leads through messages that are there to a field of one of them. */
  predicate Leads(schema: Schema, t: string, m: Message, q: Path)
    decreases q
  {
    m.valid &&
    match q
    case Itself => false
    case Here(i) => Registered(schema, t, i) && i < |m.fields|
    case Item(_, _) => false
    case Under(i, rest) =>
      && Registered(schema, t, i) && HoldsMessage(schema[t][i]) && i < |m.fields| && m.fields[i].Sub?
      && Leads(schema, schema[t][i].subtype.value, m.fields[i].message, rest)
    case UnderItem(i, k, rest) =>
      && Registered(schema, t, i) && HoldsMessages(schema[t][i]) && i < |m.fields|
      && m.fields[i].Many? && k < |m.fields[i].items| && m.fields[i].items[k].Sub?
      && Leads(schema, schema[t][i].subtype.value, m.fields[i].items[k].message, rest)
  }

  /** The field the path leads to, and the value it has there. */
  function FieldAt(schema: Schema, t: string, m: Message, q: Path): Field
    requires Leads(schema, t, m, q)
    decreases q
  {
    match q
    case Here(i) => schema[t][i]
    case Under(i, rest) => FieldAt(schema, schema[t][i].subtype.value, m.fields[i].message, rest)
    case UnderItem(i, k, rest) => FieldAt(schema, schema[t][i].subtype.value, m.fields[i].items[k].message, rest)
  }

  function ValueAt(schema: Schema, t: string, m: Message, q: Path): Value
    requires Leads(schema, t, m, q)
    decreases q
  {
    match q
    case Here(i) => m.fields[i]
    case Under(i, rest) => ValueAt(schema, schema[t][i].subtype.value, m.fields[i].message, rest)
    case UnderItem(i, k, rest) => ValueAt(schema, schema[t][i].subtype.value, m.fields[i].items[k].message, rest)
  }

  /** The message with another value there and every other value the same. */
  function Put(schema: Schema, t: string, m: Message, q: Path, v: Value): (r: Message)
    requires Leads(schema, t, m, q)
    ensures Leads(schema, t, r, q) && ValueAt(schema, t, r, q) == v && FieldAt(schema, t, r, q) == FieldAt(schema, t, m, q)
    decreases q
  {
    match q
    case Here(i) => m.(fields := m.fields[i := v])
    case Under(i, rest) =>
      m.(fields := m.fields[i := Sub(Put(schema, schema[t][i].subtype.value, m.fields[i].message, rest, v))])
    case UnderItem(i, k, rest) =>
      var items := m.fields[i].items;
      m.(fields := m.fields[i := Many(items[k := Sub(Put(schema, schema[t][i].subtype.value, items[k].message, rest, v))])])
  }

  /**
   The policies on the way to a place that may be changed: the first bound signature leaves everything
   below it to the signature's own rule, every policy before it is one that looks at the parts.
   */
  predicate WayOpen(schema: Schema, t: string, q: Path, leaf: bool)
    decreases q
  {
    match q
    case Itself => false
    case Here(_) => leaf
    case Item(_, _) => false
    case Under(i, rest) =>
      && Registered(schema, t, i) && schema[t][i].subtype.Some?
      && var p := schema[t][i].policy;
         p.BoundSignature? ||
         ((p.Charged? || p.Container? || p.Delegate? || p.FixedContainer?) && WayOpen(schema, schema[t][i].subtype.value, rest, leaf))
    case UnderItem(i, _, rest) =>
      && Registered(schema, t, i) && schema[t][i].subtype.Some?
      && var p := schema[t][i].policy;
         p.BoundSignature? ||
         ((p.Container? || p.Delegate? || p.FixedContainer?) && WayOpen(schema, schema[t][i].subtype.value, rest, leaf))
  }

  /** What the message carries in the field the path leads to may come or go. */
  ghost predicate LeafCanCome(schema: Schema, g: Grants, t: string, m: Message, q: Path)
    requires Leads(schema, t, m, q)
    decreases q
  {
    match q
    case Here(i) => FieldCanCome(schema, g, t, m, i)
    case Under(i, rest) => LeafCanCome(schema, g, schema[t][i].subtype.value, m.fields[i].message, rest)
    case UnderItem(i, k, rest) => LeafCanCome(schema, g, schema[t][i].subtype.value, m.fields[i].items[k].message, rest)
  }

  /** The change of value at the path, judged by its own field. */
  ghost predicate MayChange(schema: Schema, g: Grants, t: string, m: Message, q: Path, v: Value)
    requires Leads(schema, t, m, q)
  {
    var f, was := FieldAt(schema, t, m, q), ValueAt(schema, t, m, q);
    if Shown(f, was) && Shown(f, v) then f.policy.BoundSignature? || (f.policy.Charged? && g(f.policy.section))
    else if Shown(f, was) then LeafCanCome(schema, g, t, m, q)
    else LeafCanCome(schema, g, t, Put(schema, t, m, q, v), q)
  }

  lemma SameField(schema: Schema, g: Grants, t: string, a: Message, b: Message, i: nat)
    requires Registered(schema, t, i) && At(a, i) == At(b, i)
    ensures FieldVerdict(schema, g, t, a, b, i)
  {
  }

  lemma Reflexive(schema: Schema, g: Grants, t: string, v: Value)
    requires t in schema
    ensures InnerOk(schema, g, t, v, v)
  {
    hide FieldVerdict, MessagePresent;
    if v.Sub? && v.message.valid {
      MessageByFields(schema, g, t, v.message, v.message);
      forall i | 0 <= i < |schema[t]| ensures FieldVerdict(schema, g, t, v.message, v.message, i) {
        SameField(schema, g, t, v.message, v.message, i);
      }
    } else {
      InvalidIsPresent(schema, g, t, Inner(v));
    }
  }

  lemma InvalidIsPresent(schema: Schema, g: Grants, t: string, m: Message)
    requires !m.valid
    ensures MessagePresent(schema, g, t, m)
  {
  }

  /** Only the field the path goes through matters. */
  lemma OneField(schema: Schema, g: Grants, t: string, a: Message, b: Message, i: nat)
    requires a.valid && b.valid && a.unknown == b.unknown && Registered(schema, t, i)
    requires forall j: nat :: j != i ==> At(a, j) == At(b, j)
    ensures MessageOk(schema, g, t, a, b) <==> FieldVerdict(schema, g, t, a, b, i)
  {
    hide FieldVerdict, MessageOk;
    MessageByFields(schema, g, t, a, b);
    forall j: nat | j < |schema[t]| && j != i ensures FieldVerdict(schema, g, t, a, b, j) {
      SameField(schema, g, t, a, b, j);
    }
  }

  lemma PutElsewhere(m: Message, i: nat, v: Value)
    requires i < |m.fields|
    ensures var r := m.(fields := m.fields[i := v]);
            At(r, i) == v && forall j: nat :: j != i ==> At(r, j) == At(m, j)
  {
  }

  /**
   One value changed at any depth, every other the same: the message may replace the one before
   exactly when the policies on the way leave the place open and the change itself is granted - for
   a scalar that stays, its section or a bound signature; for a value that comes or goes, the
   sections of everything in it, and nothing host-owned or unknown.
   */
  lemma {:induction false} EditExactly(schema: Schema, g: Grants, t: string, m: Message, q: Path, v: Value)
    requires Leads(schema, t, m, q)
    requires var f, was := FieldAt(schema, t, m, q), ValueAt(schema, t, m, q);
             was != v && (Shown(f, was) || Shown(f, v)) && (Shown(f, was) && Shown(f, v) ==> f.subtype.None?)
    ensures MessageOk(schema, g, t, m, Put(schema, t, m, q, v)) <==> WayOpen(schema, t, q, MayChange(schema, g, t, m, q, v))
    decreases q
  {
    match q
    case Here(i) => EditHere(schema, g, t, m, i, v);
    case Under(i, rest) =>
      EditExactly(schema, g, schema[t][i].subtype.value, m.fields[i].message, rest, v);
      EditUnder(schema, g, t, m, i, rest, v);
    case UnderItem(i, k, rest) =>
      EditExactly(schema, g, schema[t][i].subtype.value, m.fields[i].items[k].message, rest, v);
      EditUnderItem(schema, g, t, m, i, k, rest, v);
  }

  lemma EditHere(schema: Schema, g: Grants, t: string, m: Message, i: nat, v: Value)
    requires Leads(schema, t, m, Here(i))
    requires var f, was := schema[t][i], m.fields[i];
             was != v && (Shown(f, was) || Shown(f, v)) && (Shown(f, was) && Shown(f, v) ==> f.subtype.None?)
    ensures MessageOk(schema, g, t, m, Put(schema, t, m, Here(i), v)) <==> MayChange(schema, g, t, m, Here(i), v)
  {
    hide MessageOk, FieldCanCome, ChangedPresent, InnerOk;
    var f, r := schema[t][i], Put(schema, t, m, Here(i), v);
    PutElsewhere(m, i, v);
    OneField(schema, g, t, m, r, i);
    if Shown(f, m.fields[i]) && Shown(f, v) {
      WholeVerdict(schema, g, t, m, r, i);
    } else if Shown(f, m.fields[i]) {
      FieldExactly(schema, g, t, m, i);
    } else {
      FieldExactly(schema, g, t, r, i);
    }
  }

  lemma EditUnder(schema: Schema, g: Grants, t: string, m: Message, i: nat, rest: Path, v: Value)
    requires Leads(schema, t, m, Under(i, rest)) && ValueAt(schema, t, m, Under(i, rest)) != v
    requires var sub, inner := schema[t][i].subtype.value, m.fields[i].message;
             MessageOk(schema, g, sub, inner, Put(schema, sub, inner, rest, v)) <==>
               WayOpen(schema, sub, rest, MayChange(schema, g, sub, inner, rest, v))
    ensures MessageOk(schema, g, t, m, Put(schema, t, m, Under(i, rest), v)) <==>
              WayOpen(schema, t, Under(i, rest), MayChange(schema, g, t, m, Under(i, rest), v))
  {
    hide MessageOk, FieldVerdict, LeafCanCome;
    var sub, inner, r := schema[t][i].subtype.value, m.fields[i].message, Put(schema, t, m, Under(i, rest), v);
    var changed := Put(schema, sub, inner, rest, v);
    PutElsewhere(m, i, Sub(changed));
    OneField(schema, g, t, m, r, i);
    LeafUnder(schema, g, t, m, i, rest);
    LeafUnder(schema, g, t, r, i, rest);
    if Whole(schema[t][i]) {
      WholeVerdict(schema, g, t, m, r, i);
    } else {
      OpenedVerdict(schema, g, t, m, r, i);
    }
  }

  lemma LeafUnder(schema: Schema, g: Grants, t: string, m: Message, i: nat, rest: Path)
    requires Leads(schema, t, m, Under(i, rest))
    ensures LeafCanCome(schema, g, t, m, Under(i, rest)) <==> LeafCanCome(schema, g, schema[t][i].subtype.value, m.fields[i].message, rest)
  {
    hide FieldCanCome;
  }

  lemma LeafUnderItem(schema: Schema, g: Grants, t: string, m: Message, i: nat, k: nat, rest: Path)
    requires Leads(schema, t, m, UnderItem(i, k, rest))
    ensures LeafCanCome(schema, g, t, m, UnderItem(i, k, rest)) <==>
              LeafCanCome(schema, g, schema[t][i].subtype.value, m.fields[i].items[k].message, rest)
  {
    hide FieldCanCome;
  }

  lemma EditUnderItem(schema: Schema, g: Grants, t: string, m: Message, i: nat, k: nat, rest: Path, v: Value)
    requires Leads(schema, t, m, UnderItem(i, k, rest)) && ValueAt(schema, t, m, UnderItem(i, k, rest)) != v
    requires var sub, inner := schema[t][i].subtype.value, m.fields[i].items[k].message;
             MessageOk(schema, g, sub, inner, Put(schema, sub, inner, rest, v)) <==>
               WayOpen(schema, sub, rest, MayChange(schema, g, sub, inner, rest, v))
    ensures MessageOk(schema, g, t, m, Put(schema, t, m, UnderItem(i, k, rest), v)) <==>
              WayOpen(schema, t, UnderItem(i, k, rest), MayChange(schema, g, t, m, UnderItem(i, k, rest), v))
  {
    hide MessageOk, FieldVerdict, LeafCanCome, InnerOk, ItemPresent;
    var sub, items, r := schema[t][i].subtype.value, m.fields[i].items, Put(schema, t, m, UnderItem(i, k, rest), v);
    var changed := Put(schema, sub, items[k].message, rest, v);
    var now := items[k := Sub(changed)];
    PutElsewhere(m, i, Many(now));
    OneField(schema, g, t, m, r, i);
    LeafUnderItem(schema, g, t, m, i, k, rest);
    LeafUnderItem(schema, g, t, r, i, k, rest);
    assert items[k] != now[k];
    if Whole(schema[t][i]) {
      WholeVerdict(schema, g, t, m, r, i);
    } else {
      OpenedVerdict(schema, g, t, m, r, i);
      LeadsRegistered(schema, sub, items[k].message, rest);
      InnerIs(schema, g, sub, items[k], now[k]);
      forall j | 0 <= j < |items| && j != k ensures InnerOk(schema, g, sub, items[j], now[j]) {
        Reflexive(schema, g, sub, items[j]);
      }
      var x, y := Items(At(m, i)), Items(At(r, i));
      assert x == items && y == now && |x| == |y|;
      assert FieldVerdict(schema, g, t, m, r, i) <==> InnerOk(schema, g, sub, x[k], y[k]) by {
        assert forall j :: 0 <= j < |x| && j != k ==> InnerOk(schema, g, sub, x[j], y[j]);
      }
    }
  }

  lemma LeadsRegistered(schema: Schema, t: string, m: Message, q: Path)
    requires Leads(schema, t, m, q)
    ensures t in schema
  {
  }
}
