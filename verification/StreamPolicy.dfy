/**
 The field-policy walk over two message trees (internal/plugin/stream_policy.go:194-448).

 A message type is a list of field descriptors, each with the policy the SDK's inventory
 assigns to it; the inventory itself is a parameter. `MessageOk` decides whether one tree may
 replace another under a set of write grants. The main result says what a plugin can never
 do: whatever it was not granted - host-owned fields, unknown bytes and every section it does
 not hold - is carried unchanged, at any depth.
 */
module StreamPolicy {
  import opened Wrappers

  /** Section and topology fields share one rule: changing them costs the named section. */
  datatype Policy =
    | HostOwned
    | BoundSignature
    | Charged(section: string)
    | Container
    | FixedContainer
    | Delegate
    | Unclassified

  datatype Field = Field(policy: Policy, isList: bool, subtype: Option<string>, hasPresence: bool, default: string)

  /** The registered message types. */
  type Schema = map<string, seq<Field>>

  type Grants = string -> bool

  /** A message as reflection sees it; `fields[i]` belongs to the i-th registered field of its type. */
  datatype Message = Message(valid: bool, unknown: string, fields: seq<Value>)

  datatype Value = Absent | Scalar(text: string) | Sub(message: Message) | Many(items: seq<Value>)

  const INVALID := Message(false, "", [])

  function At(m: Message, i: nat): Value {
    if i < |m.fields| then m.fields[i] else Absent
  }

  function Inner(v: Value): Message {
    if v.Sub? then v.message else INVALID
  }

  function Items(v: Value): seq<Value> {
    if v.Many? then v.items else []
  }

  /** fieldMaterial: a list is material when non-empty, a field with presence when set, a scalar when not default. */
  predicate Material(f: Field, v: Value) {
    if f.isList then |Items(v)| != 0
    else v != Absent && (f.hasPresence || v != Scalar(f.default))
  }

  // ----- a value present on one side only -----

  predicate MessagePresent(schema: Schema, g: Grants, t: string, m: Message)
    decreases m
  {
    m.valid ==>
    && m.unknown == ""
    && t in schema
    && forall i :: 0 <= i < |schema[t]| && i < |m.fields| && Material(schema[t][i], m.fields[i]) ==>
         ChangedPresent(schema, g, schema[t][i], m.fields[i])
  }

  predicate ChangedPresent(schema: Schema, g: Grants, f: Field, v: Value)
    decreases v, 2
  {
    match f.policy
    case HostOwned => false
    case BoundSignature => true
    case Charged(section) => g(section) && RecursePresent(schema, g, f, v)
    case Unclassified => false
    case _ => RecursePresent(schema, g, f, v)
  }

  predicate RecursePresent(schema: Schema, g: Grants, f: Field, v: Value)
    decreases v, 1
  {
    if f.isList then
      && (|Items(v)| > 0 ==> f.subtype.Some?)
      && (v.Many? ==> forall k :: 0 <= k < |v.items| ==> ItemPresent(schema, g, f.subtype.value, v.items[k]))
    else f.subtype.Some? ==> ItemPresent(schema, g, f.subtype.value, v)
  }

  predicate ItemPresent(schema: Schema, g: Grants, t: string, v: Value)
    decreases v, 0
  {
    v.Sub? ==> MessagePresent(schema, g, t, v.message)
  }

  // ----- two messages -----

  predicate MessageOk(schema: Schema, g: Grants, t: string, a: Message, b: Message)
    decreases a
  {
    if !a.valid then MessagePresent(schema, g, t, b)
    else if !b.valid then MessagePresent(schema, g, t, a)
    else
      && a.unknown == b.unknown
      && t in schema
      && forall i :: 0 <= i < |schema[t]| ==>
           if i < |a.fields| then FieldOk(schema, g, schema[t][i], a.fields[i], At(b, i))
           else Material(schema[t][i], At(b, i)) ==> ChangedPresent(schema, g, schema[t][i], At(b, i))
  }

  predicate FieldOk(schema: Schema, g: Grants, f: Field, a: Value, b: Value)
    decreases a, 3
  {
    if !Material(f, a) then Material(f, b) ==> ChangedPresent(schema, g, f, b)
    else if !Material(f, b) then ChangedPresent(schema, g, f, a)
    else a == b || ChangedBoth(schema, g, f, a, b)
  }

  /** A list of messages under a charged policy has no rule: reflection refuses it. */
  predicate ChangedBoth(schema: Schema, g: Grants, f: Field, a: Value, b: Value)
    decreases a, 2
  {
    match f.policy
    case HostOwned => false
    case BoundSignature => true
    case Charged(section) =>
      if f.subtype.None? then g(section)
      else !f.isList && InnerOk(schema, g, f.subtype.value, a, b)
    case Container => ContainerOk(schema, g, f, a, b)
    case Delegate => ContainerOk(schema, g, f, a, b)
    case FixedContainer => (f.isList ==> |Items(a)| == |Items(b)|) && ContainerOk(schema, g, f, a, b)
    case Unclassified => false
  }

  predicate InnerOk(schema: Schema, g: Grants, t: string, a: Value, b: Value)
    decreases a, 0
  {
    if a.Sub? then MessageOk(schema, g, t, a.message, Inner(b)) else MessagePresent(schema, g, t, Inner(b))
  }

  /** Elements are compared position by position; surplus elements on either side must carry nothing protected. */
  predicate ContainerOk(schema: Schema, g: Grants, f: Field, a: Value, b: Value)
    decreases a, 1
  {
    && f.subtype.Some?
    && if f.isList then
         && (a.Many? ==>
               forall k :: 0 <= k < |a.items| ==>
                 if k < |Items(b)| then InnerOk(schema, g, f.subtype.value, a.items[k], Items(b)[k])
                 else ItemPresent(schema, g, f.subtype.value, a.items[k]))
         && (forall k :: |Items(a)| <= k < |Items(b)| ==> ItemPresent(schema, g, f.subtype.value, Items(b)[k]))
       else InnerOk(schema, g, f.subtype.value, a, b)
  }

  // ----- what a message carries that the grants do not cover -----

  datatype Fact =
    | UnknownBytes(messageType: string, bytes: string)
    | Owned(messageType: string, field: nat, value: Value)
    | Present(messageType: string, field: nat)

  /** Every protected fact of a message, at any depth. */
  ghost function Facts(schema: Schema, g: Grants, t: string, m: Message): multiset<Fact>
    decreases m, 0
  {
    if !m.valid then multiset{}
    else
      (if m.unknown != "" then multiset{UnknownBytes(t, m.unknown)} else multiset{})
      + (if t in schema then FieldFacts(schema, g, t, m, |schema[t]|) else multiset{})
  }

  ghost function FieldFacts(schema: Schema, g: Grants, t: string, m: Message, n: nat): multiset<Fact>
    requires t in schema && n <= |schema[t]|
    decreases m, 0, n
  {
    if n == 0 then multiset{}
    else
      FieldFacts(schema, g, t, m, n - 1)
      + (if n <= |m.fields| then ValueFacts(schema, g, t, n - 1, schema[t][n - 1], m.fields[n - 1]) else multiset{})
  }

  ghost function ValueFacts(schema: Schema, g: Grants, t: string, i: nat, f: Field, v: Value): multiset<Fact>
    decreases v, 2
  {
    if !Material(f, v) then multiset{}
    else match f.policy
         case HostOwned => multiset{Owned(t, i, v)}
         case Unclassified => multiset{Owned(t, i, v)}
         case BoundSignature => multiset{}
         case Charged(section) =>
           (if g(section) then multiset{}
            else if f.subtype.Some? then multiset{Present(t, i)}
            else multiset{Owned(t, i, v)})
           + InnerFacts(schema, g, f, v)
         case _ => InnerFacts(schema, g, f, v)
  }

  ghost function InnerFacts(schema: Schema, g: Grants, f: Field, v: Value): multiset<Fact>
    decreases v, 1
  {
    if f.subtype.None? then multiset{}
    else if f.isList then ItemFacts(schema, g, f.subtype.value, v, |Items(v)|)
    else if v.Sub? then Facts(schema, g, f.subtype.value, v.message)
    else multiset{}
  }

  ghost function ItemFacts(schema: Schema, g: Grants, t: string, v: Value, n: nat): multiset<Fact>
    requires n <= |Items(v)|
    decreases v, 0, n
  {
    if n == 0 then multiset{}
    else
      ItemFacts(schema, g, t, v, n - 1)
      + (if v.Many? && v.items[n - 1].Sub? then Facts(schema, g, t, v.items[n - 1].message) else multiset{})
  }

  // ----- what may be added or removed carries nothing protected -----

  lemma {:induction false} PresentCarriesNothing(schema: Schema, g: Grants, t: string, m: Message)
    requires MessagePresent(schema, g, t, m)
    ensures Facts(schema, g, t, m) == multiset{}
    decreases m, 0
  {
    if m.valid { FieldsCarryNothing(schema, g, t, m, |schema[t]|); }
  }

  lemma {:induction false} FieldsCarryNothing(schema: Schema, g: Grants, t: string, m: Message, n: nat)
    requires m.valid && MessagePresent(schema, g, t, m) && n <= |schema[t]|
    ensures FieldFacts(schema, g, t, m, n) == multiset{}
    decreases m, 0, n
  {
    if n > 0 {
      FieldsCarryNothing(schema, g, t, m, n - 1);
      if n <= |m.fields| && Material(schema[t][n - 1], m.fields[n - 1]) {
        ValueCarriesNothing(schema, g, t, n - 1, schema[t][n - 1], m.fields[n - 1]);
      }
    }
  }

  lemma {:induction false} ValueCarriesNothing(schema: Schema, g: Grants, t: string, i: nat, f: Field, v: Value)
    requires ChangedPresent(schema, g, f, v)
    ensures ValueFacts(schema, g, t, i, f, v) == multiset{}
    decreases v, 2
  {
    if f.policy != BoundSignature { InnerCarriesNothing(schema, g, f, v); }
  }

  lemma {:induction false} InnerCarriesNothing(schema: Schema, g: Grants, f: Field, v: Value)
    requires RecursePresent(schema, g, f, v)
    ensures InnerFacts(schema, g, f, v) == multiset{}
    decreases v, 1
  {
    if f.subtype.Some? {
      if f.isList {
        ItemsCarryNothing(schema, g, f, v, |Items(v)|);
      } else if v.Sub? {
        PresentCarriesNothing(schema, g, f.subtype.value, v.message);
      }
    }
  }

  lemma {:induction false} ItemsCarryNothing(schema: Schema, g: Grants, f: Field, v: Value, n: nat)
    requires f.isList && f.subtype.Some? && RecursePresent(schema, g, f, v) && n <= |Items(v)|
    ensures ItemFacts(schema, g, f.subtype.value, v, n) == multiset{}
    decreases v, 0, n
  {
    if n > 0 {
      ItemsCarryNothing(schema, g, f, v, n - 1);
      assert ItemPresent(schema, g, f.subtype.value, v.items[n - 1]);
      if v.items[n - 1].Sub? { PresentCarriesNothing(schema, g, f.subtype.value, v.items[n - 1].message); }
    }
  }

  lemma ItemCarriesNothing(schema: Schema, g: Grants, t: string, v: Value)
    requires ItemPresent(schema, g, t, v)
    ensures Facts(schema, g, t, Inner(v)) == multiset{}
  {
    if v.Sub? { PresentCarriesNothing(schema, g, t, v.message); }
  }

  // ----- an accepted replacement keeps every protected fact -----

  /** The protected facts of two messages agree whenever one may replace the other. */
  lemma {:induction false} MessageKeepsFacts(schema: Schema, g: Grants, t: string, a: Message, b: Message)
    requires MessageOk(schema, g, t, a, b)
    ensures Facts(schema, g, t, a) == Facts(schema, g, t, b)
    decreases a, 0
  {
    if !a.valid {
      PresentCarriesNothing(schema, g, t, b);
    } else if !b.valid {
      PresentCarriesNothing(schema, g, t, a);
    } else {
      FieldsKeepFacts(schema, g, t, a, b, |schema[t]|);
    }
  }

  lemma {:induction false} FieldsKeepFacts(schema: Schema, g: Grants, t: string, a: Message, b: Message, n: nat)
    requires a.valid && b.valid && MessageOk(schema, g, t, a, b) && n <= |schema[t]|
    ensures FieldFacts(schema, g, t, a, n) == FieldFacts(schema, g, t, b, n)
    decreases a, 0, n
  {
    hide FieldOk, ChangedPresent, ValueFacts;
    if n > 0 {
      var f := schema[t][n - 1];
      FieldsKeepFacts(schema, g, t, a, b, n - 1);
      if n <= |a.fields| {
        FieldKeepsFacts(schema, g, t, n - 1, f, a.fields[n - 1], At(b, n - 1));
        AbsentCarriesNothing(schema, g, t, n - 1, f);
      } else if n <= |b.fields| {
        AbsentCarriesNothing(schema, g, t, n - 1, f);
        if Material(f, b.fields[n - 1]) {
          ValueCarriesNothing(schema, g, t, n - 1, f, b.fields[n - 1]);
        } else {
          ImmaterialCarriesNothing(schema, g, t, n - 1, f, b.fields[n - 1]);
        }
      }
    }
  }

  lemma ImmaterialCarriesNothing(schema: Schema, g: Grants, t: string, i: nat, f: Field, v: Value)
    requires !Material(f, v)
    ensures ValueFacts(schema, g, t, i, f, v) == multiset{}
  {
  }

  lemma AbsentCarriesNothing(schema: Schema, g: Grants, t: string, i: nat, f: Field)
    ensures ValueFacts(schema, g, t, i, f, Absent) == multiset{}
  {
  }

  lemma {:induction false} FieldKeepsFacts(schema: Schema, g: Grants, t: string, i: nat, f: Field, a: Value, b: Value)
    requires FieldOk(schema, g, f, a, b)
    ensures ValueFacts(schema, g, t, i, f, a) == ValueFacts(schema, g, t, i, f, b)
    decreases a, 3
  {
    if !Material(f, a) {
      if Material(f, b) { ValueCarriesNothing(schema, g, t, i, f, b); }
    } else if !Material(f, b) {
      ValueCarriesNothing(schema, g, t, i, f, a);
    } else if a != b && f.policy != BoundSignature {
      BothKeepFacts(schema, g, f, a, b);
    }
  }

  lemma {:induction false} BothKeepFacts(schema: Schema, g: Grants, f: Field, a: Value, b: Value)
    requires f.policy != BoundSignature && ChangedBoth(schema, g, f, a, b)
    ensures InnerFacts(schema, g, f, a) == InnerFacts(schema, g, f, b)
    decreases a, 2
  {
    if f.subtype.Some? {
      if f.isList {
        ItemsKeepFacts(schema, g, f, a, b, |Items(a)|, |Items(b)|);
      } else if f.policy.Charged? {
        InnerKeepsFacts(schema, g, f.subtype.value, a, b);
      } else {
        assert ContainerOk(schema, g, f, a, b);
        InnerKeepsFacts(schema, g, f.subtype.value, a, b);
      }
    }
  }

  lemma {:induction false} InnerKeepsFacts(schema: Schema, g: Grants, t: string, a: Value, b: Value)
    requires InnerOk(schema, g, t, a, b)
    ensures Facts(schema, g, t, Inner(a)) == Facts(schema, g, t, Inner(b))
    decreases a, 0
  {
    if a.Sub? {
      MessageKeepsFacts(schema, g, t, a.message, Inner(b));
    } else {
      PresentCarriesNothing(schema, g, t, Inner(b));
    }
  }

  lemma ItemFactsStep(schema: Schema, g: Grants, t: string, v: Value, n: nat)
    requires 0 < n <= |Items(v)|
    ensures ItemFacts(schema, g, t, v, n) == ItemFacts(schema, g, t, v, n - 1) + Facts(schema, g, t, Inner(Items(v)[n - 1]))
  {
  }

  lemma {:induction false} ItemsKeepFacts(schema: Schema, g: Grants, f: Field, a: Value, b: Value, n: nat, k: nat)
    requires f.isList && ContainerOk(schema, g, f, a, b)
    requires n <= |Items(a)| && k <= |Items(b)|
    requires n == k || (n == |Items(a)| && k > n) || (k == |Items(b)| && n > k)
    ensures ItemFacts(schema, g, f.subtype.value, a, n) == ItemFacts(schema, g, f.subtype.value, b, k)
    decreases a, 1, n + k
  {
    hide Facts, InnerOk, ItemPresent;
    var t := f.subtype.value;
    if n > k {
      ItemsKeepFacts(schema, g, f, a, b, n - 1, k);
      ItemFactsStep(schema, g, t, a, n);
      ItemCarriesNothing(schema, g, t, Items(a)[n - 1]);
    } else if k > n {
      ItemsKeepFacts(schema, g, f, a, b, n, k - 1);
      ItemFactsStep(schema, g, t, b, k);
      ItemCarriesNothing(schema, g, t, Items(b)[k - 1]);
    } else if n > 0 {
      ItemsKeepFacts(schema, g, f, a, b, n - 1, k - 1);
      ItemFactsStep(schema, g, t, a, n);
      ItemFactsStep(schema, g, t, b, n);
      InnerKeepsFacts(schema, g, t, Items(a)[n - 1], Items(b)[n - 1]);
    }
  }

  // ----- more grants never refuse more -----

  ghost predicate AtLeast(h: Grants, g: Grants) {
    forall section :: g(section) ==> h(section)
  }

  lemma {:induction false} PresentMonotone(schema: Schema, g: Grants, h: Grants, t: string, m: Message)
    requires AtLeast(h, g) && MessagePresent(schema, g, t, m)
    ensures MessagePresent(schema, h, t, m)
    decreases m, 0
  {
    if m.valid {
      forall i | 0 <= i < |schema[t]| && i < |m.fields| && Material(schema[t][i], m.fields[i])
        ensures ChangedPresent(schema, h, schema[t][i], m.fields[i])
      {
        ValueMonotone(schema, g, h, schema[t][i], m.fields[i]);
      }
    }
  }

  lemma {:induction false} ValueMonotone(schema: Schema, g: Grants, h: Grants, f: Field, v: Value)
    requires AtLeast(h, g) && ChangedPresent(schema, g, f, v)
    ensures ChangedPresent(schema, h, f, v)
    decreases v, 2
  {
    if f.policy != BoundSignature { RecurseMonotone(schema, g, h, f, v); }
  }

  lemma {:induction false} RecurseMonotone(schema: Schema, g: Grants, h: Grants, f: Field, v: Value)
    requires AtLeast(h, g) && RecursePresent(schema, g, f, v)
    ensures RecursePresent(schema, h, f, v)
    decreases v, 1
  {
    hide ItemPresent;
    if f.isList {
      if v.Many? {
        forall k | 0 <= k < |v.items| ensures ItemPresent(schema, h, f.subtype.value, v.items[k]) {
          ItemMonotone(schema, g, h, f.subtype.value, v.items[k]);
        }
      }
    } else if f.subtype.Some? {
      ItemMonotone(schema, g, h, f.subtype.value, v);
    }
  }

  lemma {:induction false} ItemMonotone(schema: Schema, g: Grants, h: Grants, t: string, v: Value)
    requires AtLeast(h, g) && ItemPresent(schema, g, t, v)
    ensures ItemPresent(schema, h, t, v)
    decreases v, 0
  {
    if v.Sub? { PresentMonotone(schema, g, h, t, v.message); }
  }

  lemma {:induction false} MessageMonotone(schema: Schema, g: Grants, h: Grants, t: string, a: Message, b: Message)
    requires AtLeast(h, g) && MessageOk(schema, g, t, a, b)
    ensures MessageOk(schema, h, t, a, b)
    decreases a, 0
  {
    if !a.valid {
      PresentMonotone(schema, g, h, t, b);
    } else if !b.valid {
      PresentMonotone(schema, g, h, t, a);
    } else {
      forall i | 0 <= i < |schema[t]|
        ensures if i < |a.fields| then FieldOk(schema, h, schema[t][i], a.fields[i], At(b, i))
                else Material(schema[t][i], At(b, i)) ==> ChangedPresent(schema, h, schema[t][i], At(b, i))
      {
        if i < |a.fields| {
          FieldMonotone(schema, g, h, schema[t][i], a.fields[i], At(b, i));
        } else if Material(schema[t][i], At(b, i)) {
          ValueMonotone(schema, g, h, schema[t][i], At(b, i));
        }
      }
    }
  }

  lemma {:induction false} FieldMonotone(schema: Schema, g: Grants, h: Grants, f: Field, a: Value, b: Value)
    requires AtLeast(h, g) && FieldOk(schema, g, f, a, b)
    ensures FieldOk(schema, h, f, a, b)
    decreases a, 3
  {
    if !Material(f, a) {
      if Material(f, b) { ValueMonotone(schema, g, h, f, b); }
    } else if !Material(f, b) {
      ValueMonotone(schema, g, h, f, a);
    } else if a != b {
      BothMonotone(schema, g, h, f, a, b);
    }
  }

  lemma {:induction false} BothMonotone(schema: Schema, g: Grants, h: Grants, f: Field, a: Value, b: Value)
    requires AtLeast(h, g) && ChangedBoth(schema, g, f, a, b)
    ensures ChangedBoth(schema, h, f, a, b)
    decreases a, 2
  {
    match f.policy {
      case BoundSignature =>
      case Charged(_) =>
        if f.subtype.Some? { InnerMonotone(schema, g, h, f.subtype.value, a, b); }
      case Container => ContainerMonotone(schema, g, h, f, a, b);
      case Delegate => ContainerMonotone(schema, g, h, f, a, b);
      case FixedContainer => ContainerMonotone(schema, g, h, f, a, b);
    }
  }

  lemma {:induction false} InnerMonotone(schema: Schema, g: Grants, h: Grants, t: string, a: Value, b: Value)
    requires AtLeast(h, g) && InnerOk(schema, g, t, a, b)
    ensures InnerOk(schema, h, t, a, b)
    decreases a, 0
  {
    if a.Sub? {
      MessageMonotone(schema, g, h, t, a.message, Inner(b));
    } else {
      PresentMonotone(schema, g, h, t, Inner(b));
    }
  }

  lemma {:induction false} ContainerMonotone(schema: Schema, g: Grants, h: Grants, f: Field, a: Value, b: Value)
    requires AtLeast(h, g) && ContainerOk(schema, g, f, a, b)
    ensures ContainerOk(schema, h, f, a, b)
    decreases a, 1
  {
    hide InnerOk, ItemPresent;
    var t := f.subtype.value;
    if f.isList {
      if a.Many? {
        forall k | 0 <= k < |a.items|
          ensures if k < |Items(b)| then InnerOk(schema, h, t, a.items[k], Items(b)[k]) else ItemPresent(schema, h, t, a.items[k])
        {
          if k < |Items(b)| {
            InnerMonotone(schema, g, h, t, a.items[k], Items(b)[k]);
          } else {
            ItemMonotone(schema, g, h, t, a.items[k]);
          }
        }
      }
      forall k | |Items(a)| <= k < |Items(b)| ensures ItemPresent(schema, h, t, Items(b)[k]) {
        ItemMonotone(schema, g, h, t, Items(b)[k]);
      }
    } else {
      InnerMonotone(schema, g, h, t, a, b);
    }
  }
}
