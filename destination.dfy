/**
  DestinationSpec.Equal: the null and type guard, then one four-way oneof, DestinationType,
  whose alternatives Aws, Azure, Rest and Grpc each hold a nested message.
*/
module Destination {
  import opened Wrappers
  import opened Engine
  import opened EngineLaws

  /** The DestinationType oneof; `NoDestinationType` is the unset (nil) interface. */
  datatype DestinationType<M> =
    | NoDestinationType
    | Aws(aws: Option<M>)
    | Azure(azure: Option<M>)
    | Rest(rest: Option<M>)
    | Grpc(grpc: Option<M>)

  datatype DestinationSpec<M> = DestinationSpec(destinationType: DestinationType<M>)

  /** For each alternative's message type: its Equalizer, or proto.Equal when it has none. */
  datatype DestinationRules<!M> = DestinationRules(aws: Rule<M>, azure: Rule<M>, rest: Rule<M>, grpc: Rule<M>)

  /** Which alternative is selected: 0 when unset, else its position in the type switch plus one. */
  function Tag<M>(d: DestinationType<M>): nat
  {
    match d
    case NoDestinationType => 0
    case Aws(_) => 1
    case Azure(_) => 2
    case Rest(_) => 3
    case Grpc(_) => 4
  }

  /** The type switch on `m.DestinationType`: the target must hold the same alternative, whose
      payloads then compare by that alternative's rule; the default (unset) branch passes only
      when the target is unset too. */
  function DestinationTypeEqual<M(==)>(rules: DestinationRules<M>, a: DestinationType<M>, b: DestinationType<M>): bool
  {
    match a
    case Aws(x) => b.Aws? && ElemEqual(rules.aws, x, b.aws)
    case Azure(x) => b.Azure? && ElemEqual(rules.azure, x, b.azure)
    case Rest(x) => b.Rest? && ElemEqual(rules.rest, x, b.rest)
    case Grpc(x) => b.Grpc? && ElemEqual(rules.grpc, x, b.grpc)
    case NoDestinationType => b.NoDestinationType?
  }

  /** `m.Equal(that)` for `m` of type *DestinationSpec. */
  function DestinationSpecEqual<M(==)>(rules: DestinationRules<M>, m: Option<DestinationSpec<M>>, that: Operand<DestinationSpec<M>>): bool
  {
    match Guard(m, that)
    case Decided(equal) => equal
    case CompareFields(x, target) => DestinationTypeEqual(rules, x.destinationType, target.destinationType)
  }

  /** The field descriptors of DestinationSpec. */
  function Schema<M>(rules: DestinationRules<M>): seq<Kind<M>>
  {
    [OneofField([MessageAlt(rules.aws), MessageAlt(rules.azure), MessageAlt(rules.rest), MessageAlt(rules.grpc)])]
  }

  function ChoiceOf<M>(d: DestinationType<M>): Choice<M>
  {
    match d
    case NoDestinationType => Unset
    case Aws(x) => Selected(0, Sub(x))
    case Azure(x) => Selected(1, Sub(x))
    case Rest(x) => Selected(2, Sub(x))
    case Grpc(x) => Selected(3, Sub(x))
  }

  /** The schema's view of a DestinationSpec. */
  function BodyOf<M>(x: DestinationSpec<M>): Body<M>
  {
    [Oneof(ChoiceOf(x.destinationType))]
  }

  /** The generated method and the schema-driven algorithm agree on every operand. */
  lemma DestinationSpecAgrees<M>(rules: DestinationRules<M>, m: Option<DestinationSpec<M>>, that: Operand<DestinationSpec<M>>)
    ensures HasFields(Schema(rules), LiftOption(m, BodyOf)) && OperandHasFields(Schema(rules), LiftOperand(that, BodyOf))
    ensures DestinationSpecEqual(rules, m, that) == Equal(Schema(rules), LiftOption(m, BodyOf), LiftOperand(that, BodyOf))
  {
    GuardLift(m, that, BodyOf);
    match Guard(m, that)
    case Decided(_) =>
    case CompareFields(x, target) =>
      var schema := Schema(rules);
      assert FieldsEqual(schema, BodyOf(x), BodyOf(target)) <==> FieldEqual(schema[0], BodyOf(x)[0], BodyOf(target)[0]);
  }

  /** Two specs that select different alternatives are unequal, whatever the alternatives hold;
      two unset specs are equal. */
  lemma DestinationDiscriminantStrict<M>(rules: DestinationRules<M>, x: DestinationSpec<M>, y: DestinationSpec<M>)
    ensures Tag(x.destinationType) != Tag(y.destinationType) ==> !DestinationSpecEqual(rules, Some(x), Pointer(Some(y)))
    ensures x.destinationType.NoDestinationType? && y.destinationType.NoDestinationType? ==>
              DestinationSpecEqual(rules, Some(x), Pointer(Some(y)))
  {
  }

  /** A DestinationSpec equals itself when the alternatives' Equalizers are lawful. */
  lemma DestinationSpecReflexive<M(!new)>(rules: DestinationRules<M>, x: DestinationSpec<M>)
    requires LawfulSchema(Schema(rules))
    ensures DestinationSpecEqual(rules, Some(x), Pointer(Some(x)))
    ensures DestinationSpecEqual(rules, Some(x), ByValue(x))
  {
    DestinationSpecAgrees(rules, Some(x), Pointer(Some(x)));
    DestinationSpecAgrees(rules, Some(x), ByValue(x));
    EqualReflexive(Schema(rules), Some(BodyOf(x)));
  }

  /** DestinationSpec equality is symmetric when the alternatives' Equalizers are lawful. */
  lemma DestinationSpecSymmetric<M(!new)>(rules: DestinationRules<M>, m: Option<DestinationSpec<M>>, t: Option<DestinationSpec<M>>)
    requires LawfulSchema(Schema(rules))
    ensures DestinationSpecEqual(rules, m, Pointer(t)) == DestinationSpecEqual(rules, t, Pointer(m))
  {
    DestinationSpecAgrees(rules, m, Pointer(t));
    DestinationSpecAgrees(rules, t, Pointer(m));
    EqualSymmetric(Schema(rules), LiftOption(m, BodyOf), LiftOption(t, BodyOf));
  }
}
