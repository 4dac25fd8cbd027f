/**
  RouteOptions.Equal, on a representative selection of its fields in declaration order: the
  message field Timeout, the repeated field Upgrades, the map field EnvoyMetadata, the message
  field MaxStreamDuration, the HostRewriteType oneof (one string and two message alternatives)
  and the JwtConfig oneof (two message alternatives).
*/
module Route {
  import opened Wrappers
  import opened GoStrings
  import opened Engine
  import opened EngineLaws

  /** The HostRewriteType oneof; `NoHostRewrite` is the unset (nil) interface. */
  datatype HostRewriteType<M> =
    | NoHostRewrite
    | HostRewrite(hostRewrite: GoString)
    | AutoHostRewrite(autoHostRewrite: Option<M>)
    | HostRewritePathRegex(hostRewritePathRegex: Option<M>)

  /** The JwtConfig oneof; `NoJwtConfig` is the unset (nil) interface. */
  datatype JwtConfig<M> = NoJwtConfig | Jwt(jwt: Option<M>) | JwtStaged(jwtStaged: Option<M>)

  datatype RouteOptions<M> = RouteOptions(
    timeout: Option<M>,
    upgrades: seq<Option<M>>,
    envoyMetadata: map<GoString, Option<M>>,
    maxStreamDuration: Option<M>,
    hostRewriteType: HostRewriteType<M>,
    jwtConfig: JwtConfig<M>)

  /** For each message type involved (the element or value type for Upgrades and
      EnvoyMetadata): its Equalizer, or proto.Equal when it has none. */
  datatype RouteRules<!M> = RouteRules(
    timeout: Rule<M>,
    upgrades: Rule<M>,
    envoyMetadata: Rule<M>,
    maxStreamDuration: Rule<M>,
    autoHostRewrite: Rule<M>,
    hostRewritePathRegex: Rule<M>,
    jwt: Rule<M>,
    jwtStaged: Rule<M>)

  /** Which HostRewriteType alternative is selected: 0 when unset, else its position in the
      type switch plus one. */
  function HostRewriteTag<M>(h: HostRewriteType<M>): nat
  {
    match h
    case NoHostRewrite => 0
    case HostRewrite(_) => 1
    case AutoHostRewrite(_) => 2
    case HostRewritePathRegex(_) => 3
  }

  /** The type switch on `m.HostRewriteType`. The string alternative compares with
      strings.Compare, so byte for byte. */
  function HostRewriteTypeEqual<M(==)>(rules: RouteRules<M>, a: HostRewriteType<M>, b: HostRewriteType<M>): (r: bool)
    ensures r ==> HostRewriteTag(a) == HostRewriteTag(b)
    ensures a.NoHostRewrite? && b.NoHostRewrite? ==> r
    ensures a.HostRewrite? && b.HostRewrite? ==> (r <==> a.hostRewrite == b.hostRewrite)
  {
    match a
    case HostRewrite(s) =>
      if b.HostRewrite? then
        CompareZeroIffEqual(s, b.hostRewrite);
        Compare(s, b.hostRewrite) == 0
      else false
    case AutoHostRewrite(x) => b.AutoHostRewrite? && ElemEqual(rules.autoHostRewrite, x, b.autoHostRewrite)
    case HostRewritePathRegex(x) => b.HostRewritePathRegex? && ElemEqual(rules.hostRewritePathRegex, x, b.hostRewritePathRegex)
    case NoHostRewrite => b.NoHostRewrite?
  }

  /** The type switch on `m.JwtConfig`. */
  function JwtConfigEqual<M(==)>(rules: RouteRules<M>, a: JwtConfig<M>, b: JwtConfig<M>): bool
  {
    match a
    case Jwt(x) => b.Jwt? && ElemEqual(rules.jwt, x, b.jwt)
    case JwtStaged(x) => b.JwtStaged? && ElemEqual(rules.jwtStaged, x, b.jwtStaged)
    case NoJwtConfig => b.NoJwtConfig?
  }

  /** `m.Equal(that)` for `m` of type *RouteOptions. */
  function RouteOptionsEqual<M(==)>(rules: RouteRules<M>, m: Option<RouteOptions<M>>, that: Operand<RouteOptions<M>>): bool
  {
    match Guard(m, that)
    case Decided(equal) => equal
    case CompareFields(x, target) =>
      && ElemEqual(rules.timeout, x.timeout, target.timeout)
      && ListEqual(rules.upgrades, x.upgrades, target.upgrades)
      && MapEqual(rules.envoyMetadata, x.envoyMetadata, target.envoyMetadata)
      && ElemEqual(rules.maxStreamDuration, x.maxStreamDuration, target.maxStreamDuration)
      && HostRewriteTypeEqual(rules, x.hostRewriteType, target.hostRewriteType)
      && JwtConfigEqual(rules, x.jwtConfig, target.jwtConfig)
  }

  /** The field descriptors of the modelled RouteOptions fields. */
  function Schema<M>(rules: RouteRules<M>): seq<Kind<M>>
  {
    [ MessageField(rules.timeout),
      RepeatedField(rules.upgrades),
      MapField(rules.envoyMetadata),
      MessageField(rules.maxStreamDuration),
      OneofField([StringAlt, MessageAlt(rules.autoHostRewrite), MessageAlt(rules.hostRewritePathRegex)]),
      OneofField([MessageAlt(rules.jwt), MessageAlt(rules.jwtStaged)]) ]
  }

  function HostRewriteChoice<M>(h: HostRewriteType<M>): Choice<M>
  {
    match h
    case NoHostRewrite => Unset
    case HostRewrite(s) => Selected(0, Text(s))
    case AutoHostRewrite(x) => Selected(1, Sub(x))
    case HostRewritePathRegex(x) => Selected(2, Sub(x))
  }

  function JwtChoice<M>(j: JwtConfig<M>): Choice<M>
  {
    match j
    case NoJwtConfig => Unset
    case Jwt(x) => Selected(0, Sub(x))
    case JwtStaged(x) => Selected(1, Sub(x))
  }

  /** The schema's view of a RouteOptions. */
  function BodyOf<M>(x: RouteOptions<M>): Body<M>
  {
    [ Message(x.timeout),
      Repeated(x.upgrades),
      Map(x.envoyMetadata),
      Message(x.maxStreamDuration),
      Oneof(HostRewriteChoice(x.hostRewriteType)),
      Oneof(JwtChoice(x.jwtConfig)) ]
  }

  lemma HostRewriteAgrees<M>(rules: RouteRules<M>, a: HostRewriteType<M>, b: HostRewriteType<M>)
    ensures HostRewriteTypeEqual(rules, a, b) == FieldEqual(Schema(rules)[4], Oneof(HostRewriteChoice(a)), Oneof(HostRewriteChoice(b)))
  {
  }

  /** Field by field, the typed checks are the schema's checks. */
  lemma RouteFieldsAgree<M>(rules: RouteRules<M>, x: RouteOptions<M>, target: RouteOptions<M>)
    ensures FieldsEqual(Schema(rules), BodyOf(x), BodyOf(target)) <==>
      ElemEqual(rules.timeout, x.timeout, target.timeout) &&
      ListEqual(rules.upgrades, x.upgrades, target.upgrades) &&
      MapEqual(rules.envoyMetadata, x.envoyMetadata, target.envoyMetadata) &&
      ElemEqual(rules.maxStreamDuration, x.maxStreamDuration, target.maxStreamDuration) &&
      HostRewriteTypeEqual(rules, x.hostRewriteType, target.hostRewriteType) &&
      JwtConfigEqual(rules, x.jwtConfig, target.jwtConfig)
  {
    var schema, a, b := Schema(rules), BodyOf(x), BodyOf(target);
    HostRewriteAgrees(rules, x.hostRewriteType, target.hostRewriteType);
    assert FieldEqual(schema[5], a[5], b[5]) == JwtConfigEqual(rules, x.jwtConfig, target.jwtConfig);
    assert FieldsEqual(schema, a, b) <==>
      FieldEqual(schema[0], a[0], b[0]) && FieldEqual(schema[1], a[1], b[1]) && FieldEqual(schema[2], a[2], b[2]) &&
      FieldEqual(schema[3], a[3], b[3]) && FieldEqual(schema[4], a[4], b[4]) && FieldEqual(schema[5], a[5], b[5]);
  }

  /** The generated method and the schema-driven algorithm agree on every operand. */
  lemma RouteOptionsAgrees<M>(rules: RouteRules<M>, m: Option<RouteOptions<M>>, that: Operand<RouteOptions<M>>)
    ensures HasFields(Schema(rules), LiftOption(m, BodyOf)) && OperandHasFields(Schema(rules), LiftOperand(that, BodyOf))
    ensures RouteOptionsEqual(rules, m, that) == Equal(Schema(rules), LiftOption(m, BodyOf), LiftOperand(that, BodyOf))
  {
    GuardLift(m, that, BodyOf);
    match Guard(m, that)
    case Decided(_) =>
    case CompareFields(x, target) =>
      RouteFieldsAgree(rules, x, target);
  }

  /** Swapping two upgrade configs that do not compare equal makes otherwise identical
      options unequal. */
  lemma UpgradesOrderMatters<M>(rules: RouteRules<M>, x: RouteOptions<M>, a: Option<M>, b: Option<M>)
    requires !ElemEqual(rules.upgrades, a, b)
    ensures !RouteOptionsEqual(rules, Some(x.(upgrades := [a, b])), Pointer(Some(x.(upgrades := [b, a]))))
  {
    SwappedPairUnequal(rules.upgrades, a, b);
  }

  /** Every RouteOptions value has the shape its schema describes. */
  lemma BodyConforms<M>(rules: RouteRules<M>, x: RouteOptions<M>)
    ensures Conforms(Schema(rules), BodyOf(x))
  {
    assert Fits(Schema(rules)[4], BodyOf(x)[4]);
    assert Fits(Schema(rules)[5], BodyOf(x)[5]);
  }

  /** RouteOptions equals itself when every rule is lawful. */
  lemma RouteOptionsReflexive<M(!new)>(rules: RouteRules<M>, x: RouteOptions<M>)
    requires LawfulSchema(Schema(rules))
    ensures RouteOptionsEqual(rules, Some(x), Pointer(Some(x)))
    ensures RouteOptionsEqual(rules, Some(x), ByValue(x))
  {
    RouteOptionsAgrees(rules, Some(x), Pointer(Some(x)));
    RouteOptionsAgrees(rules, Some(x), ByValue(x));
    BodyConforms(rules, x);
    EqualReflexive(Schema(rules), Some(BodyOf(x)));
  }

  /** With lawful Equalizers, two EnvoyMetadata maps filled with the same key/value pairs in
      different orders give equal RouteOptions. The maps themselves are identical whatever the
      rules (InsertionOrderIrrelevant); that identical options compare equal needs the rules to be
      reflexive. */
  lemma MetadataInsertionOrderIrrelevant<M(!new)>(
    rules: RouteRules<M>, x: RouteOptions<M>, ps: seq<(GoString, Option<M>)>, qs: seq<(GoString, Option<M>)>)
    requires LawfulSchema(Schema(rules))
    requires DistinctKeys(ps) && DistinctKeys(qs) && multiset(ps) == multiset(qs)
    ensures RouteOptionsEqual(rules, Some(x.(envoyMetadata := FromEntries(ps))), Pointer(Some(x.(envoyMetadata := FromEntries(qs)))))
  {
    InsertionOrderIrrelevant(ps, qs);
    RouteOptionsReflexive(rules, x.(envoyMetadata := FromEntries(ps)));
  }

  /** RouteOptions equality is symmetric when every rule is lawful and no EnvoyMetadata entry
      is nil. */
  lemma RouteOptionsSymmetric<M(!new)>(rules: RouteRules<M>, m: Option<RouteOptions<M>>, t: Option<RouteOptions<M>>)
    requires LawfulSchema(Schema(rules))
    requires m.Some? ==> NilFreeMap(m.value.envoyMetadata)
    requires t.Some? ==> NilFreeMap(t.value.envoyMetadata)
    ensures RouteOptionsEqual(rules, m, Pointer(t)) == RouteOptionsEqual(rules, t, Pointer(m))
  {
    RouteOptionsAgrees(rules, m, Pointer(t));
    RouteOptionsAgrees(rules, t, Pointer(m));
    EqualSymmetric(Schema(rules), LiftOption(m, BodyOf), LiftOption(t, BodyOf));
  }

  /** With a nil EnvoyMetadata entry, RouteOptions equality is not symmetric: `m` equals `t`
      but `t` does not equal `m`. EnvoyMetadata values (structpb.Struct) have no Equalizer. */
  lemma MetadataNilEntryBreaksSymmetry<M(!new)>(rules: RouteRules<M>, p: M, q: M)
    requires LawfulSchema(Schema(rules)) && rules.envoyMetadata.Structural?
    ensures exists m: RouteOptions<M>, t: RouteOptions<M> ::
              RouteOptionsEqual(rules, Some(m), Pointer(Some(t))) && !RouteOptionsEqual(rules, Some(t), Pointer(Some(m)))
  {
    MapCheckNotSymmetric(p, q);
    var k0: GoString, k1: GoString, k2: GoString := [0], [1], [2];
    var x := RouteOptions(None, [], map[], None, NoHostRewrite, NoJwtConfig);
    var m := x.(envoyMetadata := map[k0 := None, k1 := Some(p)]);
    var t := x.(envoyMetadata := map[k1 := Some(p), k2 := Some(q)]);
    assert LawfulKind(Schema(rules)[0]) && LawfulKind(Schema(rules)[3]);
    ElemLaws(rules.timeout, None, None, None);
    ElemLaws(rules.maxStreamDuration, None, None, None);
    assert RouteOptionsEqual(rules, Some(m), Pointer(Some(t)));
    assert !RouteOptionsEqual(rules, Some(t), Pointer(Some(m)));
  }
}
