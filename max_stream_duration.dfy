/**
  RouteOptions_MaxStreamDuration.Equal: the null and type guard, then three message fields in
  declaration order. It is the Equalizer that RouteOptions.Equal calls for its MaxStreamDuration
  field, so it is also modelled as a `Rule` and proved lawful.
*/
module MaxStreamDuration {
  import opened Wrappers
  import opened Engine
  import opened EngineLaws

  datatype MaxStreamDuration<M> = MaxStreamDuration(
    maxStreamDuration: Option<M>,
    grpcTimeoutHeaderMax: Option<M>,
    grpcTimeoutHeaderOffset: Option<M>)

  /** For each field's message type: its Equalizer, or proto.Equal when it has none. */
  datatype MaxStreamDurationRules<!M> = MaxStreamDurationRules(
    maxStreamDuration: Rule<M>,
    grpcTimeoutHeaderMax: Rule<M>,
    grpcTimeoutHeaderOffset: Rule<M>)

  /** `m.Equal(that)` for `m` of type *RouteOptions_MaxStreamDuration. */
  function MaxStreamDurationEqual<M(==)>(rules: MaxStreamDurationRules<M>, m: Option<MaxStreamDuration<M>>, that: Operand<MaxStreamDuration<M>>): bool
  {
    match Guard(m, that)
    case Decided(equal) => equal
    case CompareFields(x, target) =>
      && ElemEqual(rules.maxStreamDuration, x.maxStreamDuration, target.maxStreamDuration)
      && ElemEqual(rules.grpcTimeoutHeaderMax, x.grpcTimeoutHeaderMax, target.grpcTimeoutHeaderMax)
      && ElemEqual(rules.grpcTimeoutHeaderOffset, x.grpcTimeoutHeaderOffset, target.grpcTimeoutHeaderOffset)
  }

  /** The field descriptors of RouteOptions_MaxStreamDuration. */
  function Schema<M>(rules: MaxStreamDurationRules<M>): seq<Kind<M>>
  {
    [ MessageField(rules.maxStreamDuration),
      MessageField(rules.grpcTimeoutHeaderMax),
      MessageField(rules.grpcTimeoutHeaderOffset) ]
  }

  /** The schema's view of a RouteOptions_MaxStreamDuration. */
  function BodyOf<M>(x: MaxStreamDuration<M>): Body<M>
  {
    [ Message(x.maxStreamDuration),
      Message(x.grpcTimeoutHeaderMax),
      Message(x.grpcTimeoutHeaderOffset) ]
  }

  /** The generated method as the Equalizer of a field of this type: the field's value is the
      (possibly nil) receiver and the other message's field, a (possibly nil) pointer, is the
      argument. */
  function AsEqualizer<M(==)>(rules: MaxStreamDurationRules<M>): Rule<MaxStreamDuration<M>>
  {
    Custom((a: Option<MaxStreamDuration<M>>, b: Option<MaxStreamDuration<M>>) => MaxStreamDurationEqual(rules, a, Pointer(b)))
  }

  /** The generated method and the schema-driven algorithm agree on every operand. */
  lemma MaxStreamDurationAgrees<M>(rules: MaxStreamDurationRules<M>, m: Option<MaxStreamDuration<M>>, that: Operand<MaxStreamDuration<M>>)
    ensures HasFields(Schema(rules), LiftOption(m, BodyOf)) && OperandHasFields(Schema(rules), LiftOperand(that, BodyOf))
    ensures MaxStreamDurationEqual(rules, m, that) == Equal(Schema(rules), LiftOption(m, BodyOf), LiftOperand(that, BodyOf))
  {
    GuardLift(m, that, BodyOf);
    match Guard(m, that)
    case Decided(_) =>
    case CompareFields(x, target) =>
      var schema, a, b := Schema(rules), BodyOf(x), BodyOf(target);
      assert FieldsEqual(schema, a, b) <==>
        FieldEqual(schema[0], a[0], b[0]) && FieldEqual(schema[1], a[1], b[1]) && FieldEqual(schema[2], a[2], b[2]);
  }

  /** As an Equalizer, the generated method is the engine's verdict on the schema view. */
  lemma AsEqualizerIsEngineVerdict<M>(rules: MaxStreamDurationRules<M>, a: Option<MaxStreamDuration<M>>, b: Option<MaxStreamDuration<M>>)
    ensures AsEqualizer(rules).verdict(a, b) == EngineVerdict(Schema(rules), BodyOf, a, b)
  {
    MaxStreamDurationAgrees(rules, a, Pointer(b));
  }

  /** When the Equalizers of its own three fields are lawful, the Equalizer that RouteOptions
      uses for MaxStreamDuration is lawful: reflexive, symmetric, transitive, and never equating a
      present value with a nil one. */
  lemma EqualizerLawful<M(!new)>(rules: MaxStreamDurationRules<M>)
    requires LawfulSchema(Schema(rules))
    ensures LawfulRule(AsEqualizer(rules))
  {
    var schema, v := Schema(rules), AsEqualizer(rules).verdict;
    forall x: MaxStreamDuration<M> ensures Conforms(schema, BodyOf(x)) && NilFree(BodyOf(x)) {
    }
    EngineVerdictLawful(schema, BodyOf);
    var w := (a: Option<MaxStreamDuration<M>>, b: Option<MaxStreamDuration<M>>) => EngineVerdict(schema, BodyOf, a, b);
    forall a: Option<MaxStreamDuration<M>>, b: Option<MaxStreamDuration<M>> ensures v(a, b) == w(a, b) {
      AsEqualizerIsEngineVerdict(rules, a, b);
    }
    LawfulBySameVerdicts(v, w);
  }

  /** RouteOptions_MaxStreamDuration equals itself when its fields' Equalizers are lawful. */
  lemma MaxStreamDurationReflexive<M(!new)>(rules: MaxStreamDurationRules<M>, x: MaxStreamDuration<M>)
    requires LawfulSchema(Schema(rules))
    ensures MaxStreamDurationEqual(rules, Some(x), Pointer(Some(x)))
    ensures MaxStreamDurationEqual(rules, Some(x), ByValue(x))
  {
    MaxStreamDurationAgrees(rules, Some(x), Pointer(Some(x)));
    MaxStreamDurationAgrees(rules, Some(x), ByValue(x));
    EqualReflexive(Schema(rules), Some(BodyOf(x)));
  }
}
