/**
  The comparison algorithm that every generated `Equal(that interface{}) bool` method of
  projects/gloo/pkg/api/v1/options.pb.equal.go spells out for one message type, written once
  and driven by a schema: the ordered list of the type's field kinds.

  A nested message is a value of the opaque type `M`; `None` is a nil pointer. How two nested
  messages are compared is the field's `Rule`: the Equalizer of the field's type when it has
  one, else proto.Equal. Both are foreign code, so the model takes an Equalizer's verdict as a
  given function and models proto.Equal as equality of the modelled values.
*/
module Engine {
  import opened Wrappers
  import opened GoStrings

  /** `Custom` is the field type's own equality.Equalizer, seen only through its verdict;
      `Structural` is proto.Equal: two nils are equal, a nil never equals a present message,
      and present messages compare by content. */
  datatype Rule<!M> = Structural | Custom(verdict: (Option<M>, Option<M>) -> bool)

  /** One alternative of a oneof group: a string, or a message with its rule. */
  datatype Alt<!M> = StringAlt | MessageAlt(rule: Rule<M>)

  /** The kind of one declared field, as a field descriptor gives it. */
  datatype Kind<!M> =
    | MessageField(rule: Rule<M>)
    | RepeatedField(rule: Rule<M>)
    | MapField(rule: Rule<M>)
    | OneofField(alts: seq<Alt<M>>)

  /** What a selected oneof alternative holds. */
  datatype Payload<M> = Text(text: GoString) | Sub(sub: Option<M>)

  /** A oneof group: unset (the nil interface), or alternative `alt` (its position in the
      group's declaration) holding `payload`. */
  datatype Choice<M> = Unset | Selected(alt: nat, payload: Payload<M>)

  /** The current value of one field. Map keys are strings, as in every map field of the file. */
  datatype Value<M> =
    | Message(msg: Option<M>)
    | Repeated(items: seq<Option<M>>)
    | Map(entries: map<GoString, Option<M>>)
    | Oneof(choice: Choice<M>)

  /** A message instance: one value per declared field, in declaration order. */
  type Body<M> = seq<Value<M>>

  /** The dynamic operand `that interface{}`: the nil interface, a pointer of the receiver's
      type (possibly nil), a value of the receiver's type, or anything else. */
  datatype Operand<T> = NilInterface | Pointer(target: Option<T>) | ByValue(copy: T) | OtherType

  /** What the null and type guard decides: the result outright, or the pair of messages whose
      fields are to be compared. */
  datatype Verdict<T> = Decided(equal: bool) | CompareFields(m: T, target: T)

  /** The null and type guard that opens every Equal method: `m` is the receiver. */
  function Guard<T>(m: Option<T>, that: Operand<T>): (g: Verdict<T>)
    ensures g.CompareFields? <==> m.Some? && (that.ByValue? || (that.Pointer? && that.target.Some?))
    ensures g.CompareFields? ==> g.m == m.value
    ensures g.CompareFields? && that.ByValue? ==> g.target == that.copy
    ensures g.CompareFields? && that.Pointer? ==> that.target == Some(g.target)
    ensures g.Decided? ==> (g.equal <==> m.None? && (that.NilInterface? || (that.Pointer? && that.target.None?)))
  {
    match that
    case NilInterface => Decided(m.None?)
    case OtherType => Decided(false)
    case Pointer(target) =>
      if target.None? then Decided(m.None?)
      else if m.None? then Decided(false)
      else CompareFields(m.value, target.value)
    case ByValue(copy) =>
      // the generated code takes the address of the copy, which is never nil
      if m.None? then Decided(false) else CompareFields(m.value, copy)
  }

  /** The per-value step: the Equalizer's verdict when the type has one, else proto.Equal. */
  function ElemEqual<M(==)>(rule: Rule<M>, a: Option<M>, b: Option<M>): bool
  {
    match rule
    case Custom(verdict) => verdict(a, b)
    case Structural => a == b
  }

  /** A repeated field: lengths first, then element `i` against element `i`. */
  function ListEqual<M(==)>(rule: Rule<M>, a: seq<Option<M>>, b: seq<Option<M>>): bool
  {
    |a| == |b| && forall i :: 0 <= i < |a| ==> ElemEqual(rule, a[i], b[i])
  }

  /** Go's map index: a missing key reads as the zero value, a nil pointer. */
  function Lookup<M>(entries: map<GoString, Option<M>>, k: GoString): Option<M>
  {
    if k in entries then entries[k] else None
  }

  /** A map field: sizes first, then every key of `a` against the value `b` returns for it. */
  function MapEqual<M(==)>(rule: Rule<M>, a: map<GoString, Option<M>>, b: map<GoString, Option<M>>): bool
  {
    |a| == |b| && forall k :: k in a ==> ElemEqual(rule, a[k], Lookup(b, k))
  }

  /** The payloads of one selected alternative: strings byte by byte through strings.Compare,
      messages by the alternative's rule. */
  function PayloadEqual<M(==)>(alt: Alt<M>, p: Payload<M>, q: Payload<M>): (r: bool)
    ensures alt.StringAlt? && p.Text? && q.Text? ==> (r <==> p.text == q.text)
    ensures alt.MessageAlt? && alt.rule.Structural? && p.Sub? && q.Sub? ==> (r <==> p == q)
    ensures alt.MessageAlt? && alt.rule.Custom? && p.Sub? && q.Sub? ==> (r <==> alt.rule.verdict(p.sub, q.sub))
  {
    match alt
    case StringAlt =>
      if p.Text? && q.Text? then
        CompareZeroIffEqual(p.text, q.text);
        Compare(p.text, q.text) == 0
      else false
    case MessageAlt(rule) => p.Sub? && q.Sub? && ElemEqual(rule, p.sub, q.sub)
  }

  /** A oneof group: the type switch on `a`'s alternative; its default branch, taken when `a`
      is unset, passes only when `b` is unset too. */
  function OneofEqual<M(==)>(alts: seq<Alt<M>>, a: Choice<M>, b: Choice<M>): (r: bool)
    ensures a.Unset? && b.Unset? ==> r
    ensures r ==> (a.Unset? <==> b.Unset?)
    ensures a.Selected? && b.Selected? && a.alt != b.alt ==> !r
    ensures a.Selected? && b.Selected? && a.alt == b.alt && a.alt < |alts| ==>
              (r <==> PayloadEqual(alts[a.alt], a.payload, b.payload))
  {
    match a
    case Selected(k, p) => b.Selected? && b.alt == k && k < |alts| && PayloadEqual(alts[k], p, b.payload)
    case Unset => b.Unset?
  }

  /** One field check, dispatched on the field's kind. */
  function FieldEqual<M(==)>(kind: Kind<M>, a: Value<M>, b: Value<M>): bool
  {
    match kind
    case MessageField(rule) => a.Message? && b.Message? && ElemEqual(rule, a.msg, b.msg)
    case RepeatedField(rule) => a.Repeated? && b.Repeated? && ListEqual(rule, a.items, b.items)
    case MapField(rule) => a.Map? && b.Map? && MapEqual(rule, a.entries, b.entries)
    case OneofField(alts) => a.Oneof? && b.Oneof? && OneofEqual(alts, a.choice, b.choice)
  }

  /** The chain of field checks in declaration order; `&&` returns at the first failing one. */
  function FieldsEqual<M(==)>(schema: seq<Kind<M>>, a: Body<M>, b: Body<M>): (r: bool)
    requires |a| == |schema| && |b| == |schema|
    ensures r <==> forall i :: 0 <= i < |schema| ==> FieldEqual(schema[i], a[i], b[i])
    decreases |schema|
  {
    if schema == [] then true
    else FieldEqual(schema[0], a[0], b[0]) && FieldsEqual(schema[1..], a[1..], b[1..])
  }

  /** A body has one value per declared field. */
  predicate HasFields<M>(schema: seq<Kind<M>>, m: Option<Body<M>>)
  {
    m.Some? ==> |m.value| == |schema|
  }

  /** The operand's message, if any, has one value per declared field. */
  predicate OperandHasFields<M>(schema: seq<Kind<M>>, that: Operand<Body<M>>)
  {
    match that
    case Pointer(target) => HasFields(schema, target)
    case ByValue(copy) => |copy| == |schema|
    case _ => true
  }

  /** `m.Equal(that)` for a message type whose fields `schema` describes. */
  function Equal<M(==)>(schema: seq<Kind<M>>, m: Option<Body<M>>, that: Operand<Body<M>>): (r: bool)
    requires HasFields(schema, m) && OperandHasFields(schema, that)
    ensures that.NilInterface? ==> (r <==> m.None?)
    ensures that.Pointer? && that.target.None? ==> (r <==> m.None?)
    ensures that.OtherType? ==> !r
    ensures m.None? && r ==> that.NilInterface? || (that.Pointer? && that.target.None?)
    ensures m.Some? && that.Pointer? && that.target.Some? ==>
              (r <==> forall i :: 0 <= i < |schema| ==> FieldEqual(schema[i], m.value[i], that.target.value[i]))
    ensures m.Some? && that.ByValue? ==>
              (r <==> forall i :: 0 <= i < |schema| ==> FieldEqual(schema[i], m.value[i], that.copy[i]))
  {
    match Guard(m, that)
    case Decided(equal) => equal
    case CompareFields(x, target) => FieldsEqual(schema, x, target)
  }

  /** The `for idx, v := range` loop over a repeated field, returning at the first mismatch. */
  method CompareRepeated<M(==)>(rule: Rule<M>, a: seq<Option<M>>, b: seq<Option<M>>) returns (equal: bool)
    ensures |a| != |b| ==> !equal
    ensures equal <==> ListEqual(rule, a, b)
  {
    if |a| != |b| {
      return false;
    }
    for i := 0 to |a|
      invariant forall j :: 0 <= j < i ==> ElemEqual(rule, a[j], b[j])
    {
      if !ElemEqual(rule, a[i], b[i]) {
        return false;
      }
    }
    return true;
  }

  /** The `for k, v := range` loop over a map field. Go visits the keys in an unspecified
      order; the loop here takes them in any order, and the result is the same for every one. */
  method CompareMap<M(==)>(rule: Rule<M>, a: map<GoString, Option<M>>, b: map<GoString, Option<M>>)
    returns (equal: bool)
    ensures |a| != |b| ==> !equal
    ensures equal <==> MapEqual(rule, a, b)
  {
    if |a| != |b| {
      return false;
    }
    var pending := a.Keys;
    while pending != {}
      invariant pending <= a.Keys
      invariant forall k :: k in a && k !in pending ==> ElemEqual(rule, a[k], Lookup(b, k))
      decreases pending
    {
      var k :| k in pending;
      if !ElemEqual(rule, a[k], Lookup(b, k)) {
        return false;
      }
      pending := pending - {k};
    }
    return true;
  }

  /** Carries an optional typed message into the schema's view of it. */
  function LiftOption<T, U>(m: Option<T>, f: T -> U): (r: Option<U>)
    ensures r.Some? <==> m.Some?
  {
    match m
    case None => None
    case Some(x) => Some(f(x))
  }

  /** Carries a typed operand into the schema's view of it; other types stay other types. */
  function LiftOperand<T, U>(that: Operand<T>, f: T -> U): (r: Operand<U>)
    ensures r.NilInterface? <==> that.NilInterface?
    ensures r.OtherType? <==> that.OtherType?
  {
    match that
    case NilInterface => NilInterface
    case Pointer(target) => Pointer(LiftOption(target, f))
    case ByValue(copy) => ByValue(f(copy))
    case OtherType => OtherType
  }
}
