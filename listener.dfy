/**
  ListenerOptions.Equal: the null and type guard, then four message fields and the repeated
  field SocketOptions, in declaration order.
*/
module Listener {
  import opened Wrappers
  import opened Engine
  import opened EngineLaws

  datatype ListenerOptions<M> = ListenerOptions(
    accessLoggingService: Option<M>,
    extensions: Option<M>,
    perConnectionBufferLimitBytes: Option<M>,
    socketOptions: seq<Option<M>>,
    proxyProtocol: Option<M>)

  /** For each field's message type (the element type for SocketOptions): its Equalizer, or
      proto.Equal when it has none. */
  datatype ListenerRules<!M> = ListenerRules(
    accessLoggingService: Rule<M>,
    extensions: Rule<M>,
    perConnectionBufferLimitBytes: Rule<M>,
    socketOptions: Rule<M>,
    proxyProtocol: Rule<M>)

  /** `m.Equal(that)` for `m` of type *ListenerOptions. */
  function ListenerOptionsEqual<M(==)>(rules: ListenerRules<M>, m: Option<ListenerOptions<M>>, that: Operand<ListenerOptions<M>>): bool
  {
    match Guard(m, that)
    case Decided(equal) => equal
    case CompareFields(x, target) =>
      && ElemEqual(rules.accessLoggingService, x.accessLoggingService, target.accessLoggingService)
      && ElemEqual(rules.extensions, x.extensions, target.extensions)
      && ElemEqual(rules.perConnectionBufferLimitBytes, x.perConnectionBufferLimitBytes, target.perConnectionBufferLimitBytes)
      && ListEqual(rules.socketOptions, x.socketOptions, target.socketOptions)
      && ElemEqual(rules.proxyProtocol, x.proxyProtocol, target.proxyProtocol)
  }

  /** The field descriptors of ListenerOptions. */
  function Schema<M>(rules: ListenerRules<M>): seq<Kind<M>>
  {
    [ MessageField(rules.accessLoggingService),
      MessageField(rules.extensions),
      MessageField(rules.perConnectionBufferLimitBytes),
      RepeatedField(rules.socketOptions),
      MessageField(rules.proxyProtocol) ]
  }

  /** The schema's view of a ListenerOptions. */
  function BodyOf<M>(x: ListenerOptions<M>): Body<M>
  {
    [ Message(x.accessLoggingService),
      Message(x.extensions),
      Message(x.perConnectionBufferLimitBytes),
      Repeated(x.socketOptions),
      Message(x.proxyProtocol) ]
  }

  /** The generated method and the schema-driven algorithm agree on every operand. */
  lemma ListenerOptionsAgrees<M>(rules: ListenerRules<M>, m: Option<ListenerOptions<M>>, that: Operand<ListenerOptions<M>>)
    ensures HasFields(Schema(rules), LiftOption(m, BodyOf)) && OperandHasFields(Schema(rules), LiftOperand(that, BodyOf))
    ensures ListenerOptionsEqual(rules, m, that) == Equal(Schema(rules), LiftOption(m, BodyOf), LiftOperand(that, BodyOf))
  {
    GuardLift(m, that, BodyOf);
    match Guard(m, that)
    case Decided(_) =>
    case CompareFields(x, target) =>
      var schema, a, b := Schema(rules), BodyOf(x), BodyOf(target);
      assert FieldsEqual(schema, a, b) <==>
        FieldEqual(schema[0], a[0], b[0]) && FieldEqual(schema[1], a[1], b[1]) && FieldEqual(schema[2], a[2], b[2]) &&
        FieldEqual(schema[3], a[3], b[3]) && FieldEqual(schema[4], a[4], b[4]);
  }

  /** SocketOptions of different lengths make the options unequal, whatever else they hold. */
  lemma SocketOptionsLengthMismatch<M>(rules: ListenerRules<M>, x: ListenerOptions<M>, y: ListenerOptions<M>)
    requires |x.socketOptions| != |y.socketOptions|
    ensures !ListenerOptionsEqual(rules, Some(x), Pointer(Some(y)))
    ensures !ListenerOptionsEqual(rules, Some(x), ByValue(y))
  {
  }

  /** Swapping two socket options that do not compare equal makes otherwise identical
      options unequal: the list is compared position by position. */
  lemma SocketOptionsOrderMatters<M>(rules: ListenerRules<M>, x: ListenerOptions<M>, a: Option<M>, b: Option<M>)
    requires !ElemEqual(rules.socketOptions, a, b)
    ensures !ListenerOptionsEqual(rules, Some(x.(socketOptions := [a, b])), Pointer(Some(x.(socketOptions := [b, a]))))
  {
    SwappedPairUnequal(rules.socketOptions, a, b);
  }

  /** ListenerOptions equals itself when every field's Equalizer is lawful. */
  lemma ListenerOptionsReflexive<M(!new)>(rules: ListenerRules<M>, x: ListenerOptions<M>)
    requires LawfulSchema(Schema(rules))
    ensures ListenerOptionsEqual(rules, Some(x), Pointer(Some(x)))
    ensures ListenerOptionsEqual(rules, Some(x), ByValue(x))
  {
    ListenerOptionsAgrees(rules, Some(x), Pointer(Some(x)));
    ListenerOptionsAgrees(rules, Some(x), ByValue(x));
    EqualReflexive(Schema(rules), Some(BodyOf(x)));
  }

  /** ListenerOptions equality is symmetric when every field's Equalizer is lawful. */
  lemma ListenerOptionsSymmetric<M(!new)>(rules: ListenerRules<M>, m: Option<ListenerOptions<M>>, t: Option<ListenerOptions<M>>)
    requires LawfulSchema(Schema(rules))
    ensures ListenerOptionsEqual(rules, m, Pointer(t)) == ListenerOptionsEqual(rules, t, Pointer(m))
  {
    ListenerOptionsAgrees(rules, m, Pointer(t));
    ListenerOptionsAgrees(rules, t, Pointer(m));
    EqualSymmetric(Schema(rules), LiftOption(m, BodyOf), LiftOption(t, BodyOf));
  }
}
