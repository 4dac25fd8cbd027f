# Deep equality of the Gloo v1 option messages

Gloo's protobuf plugin generates an `Equal(that interface{}) bool` method for each options message of
`projects/gloo/pkg/api/v1`: ListenerOptions, RouteOptions, DestinationSpec, and the others in
`options.pb.equal.go`. Every method follows one recipe:

1. A null and type guard. A nil interface is equal only to a nil receiver. A pointer or a by-value copy of
   the receiver's type is accepted. Any other type is unequal. A nil pointer is equal only to a nil receiver.
2. One check per declared field, in declaration order. The method returns `false` at the first check
   that fails.
   - A message field uses the field type's own `equality.Equalizer` when it has one, and `proto.Equal`
     otherwise.
   - A repeated field compares lengths, then compares element `i` with element `i`.
   - A map field compares sizes, then looks up every key of the receiver's map in the target's map.
   - A oneof group is a type switch. The target must hold the same alternative, and the two payloads
     are then compared. When the receiver's group is unset, the `default` branch passes only if the
     target's group is unset too.

The model writes this recipe once, in module `Engine`, driven by a *schema*: the list of a type's field
kinds (`Kind`). Each kind carries the `Rule` for the nested message type:
- `Custom(verdict)` is an Equalizer, seen only through its verdict.
- `Structural` is `proto.Equal`, modelled as equality of the modelled values, where a nil pointer is
  `None`.

The operand `that interface{}` is the datatype `Operand`: the nil interface, a (possibly nil) pointer, a
by-value copy, or another type. Strings are byte sequences, and `strings.Compare` is modelled as
lexicographic byte comparison (`GoStrings`). The `for … range` loops over repeated and map fields are
methods proved equal to their specification functions. The map loop takes its keys in an arbitrary
order, because Go's map iteration order is unspecified.

Four generated methods are written out as typed Dafny functions, each proved to agree with the engine
on every operand:
- `Listener.ListenerOptionsEqual`: message fields plus a repeated field.
- `Destination.DestinationSpecEqual`: a four-way oneof.
- `Route.RouteOptionsEqual`: message, repeated and map fields, a oneof with a string alternative, and a
  message-only oneof.
- `MaxStreamDuration.MaxStreamDurationEqual`: three message fields. It is also the Equalizer that
  RouteOptions.Equal calls for its MaxStreamDuration field, and it is proved to be a lawful one.

On top of this, `EngineLaws` proves the following:
- the short-circuit order;
- that an Equalizer takes precedence over `proto.Equal`;
- what the repeated and map checks mean;
- that the map check ignores insertion order;
- that equality is reflexive, symmetric and transitive when the Equalizers involved are lawful and no
  map holds a nil entry.

The map check is not symmetric in general. A missing key reads as a nil pointer, so a nil entry in the
receiver matches a key that is absent from the target, but not the other way round.
`EngineLaws.MapCheckNotSymmetric` and `Route.MetadataNilEntryBreaksSymmetry` exhibit this. So equality of
these messages is an equivalence relation only on values whose maps hold no nil entries. The model
follows the code here, not the intent that a value must be present at the same key.

## Model

All source paths are in `projects/gloo/pkg/api/v1/options.pb.equal.go`.

| member | source | states |
|---|---|---|
| GoStrings.Compare | projects/gloo/pkg/api/v1/options.pb.equal.go:1013 | strings.Compare returns -1, 0 or 1, and a proper prefix sorts first |
| GoStrings.CompareZeroIffEqual | projects/gloo/pkg/api/v1/options.pb.equal.go:1013 | strings.Compare is 0 exactly when the two strings are byte-identical |
| Engine.Guard | projects/gloo/pkg/api/v1/options.pb.equal.go:29-47 | field comparison happens exactly when the receiver is non-nil and the operand is a non-nil pointer or a by-value copy, with the receiver and the operand's message as the pair; otherwise the result is true exactly for a nil receiver against a nil interface or a nil pointer |
| Engine.ElemEqual | projects/gloo/pkg/api/v1/options.pb.equal.go:49-57 | one value check: the Equalizer's verdict when the type has one, else proto.Equal; its contract is EngineLaws.EqualizerTakesPrecedence |
| Engine.ListEqual | projects/gloo/pkg/api/v1/options.pb.equal.go:79-94 | the repeated-field check; its contract is Engine.CompareRepeated, with EngineLaws.StructuralListEqualIsEquality and EngineLaws.SwappedPairUnequal |
| Engine.Lookup | projects/gloo/pkg/api/v1/options.pb.equal.go:965-969 | Go's map index, where a missing key reads as a nil message; its consequence is stated by EngineLaws.MissingKeyMatchesNilEntry |
| Engine.MapEqual | projects/gloo/pkg/api/v1/options.pb.equal.go:959-974 | the map-field check; its contract is Engine.CompareMap, with EngineLaws.StructuralMapEqualIsEquality, EngineLaws.MapEqualSameKeys and EngineLaws.MapCheckNotSymmetric |
| Engine.FieldEqual | projects/gloo/pkg/api/v1/options.pb.equal.go:49-106 | one field check, chosen by the field's kind; its contract is Engine.FieldsEqual together with the per-kind lemmas |
| Engine.PayloadEqual | projects/gloo/pkg/api/v1/options.pb.equal.go:1008-1044 | a string alternative is equal exactly when the strings are identical; a message alternative is decided by its Equalizer's verdict when the type has one, and otherwise is equal exactly when the payloads are identical (proto.Equal) |
| Engine.OneofEqual | projects/gloo/pkg/api/v1/options.pb.equal.go:1006-1052 | two unset groups are equal; equal groups are both unset or both set; different alternatives are unequal; the same alternative is equal exactly when its payloads are |
| Engine.FieldsEqual | projects/gloo/pkg/api/v1/options.pb.equal.go:49-106 | the chain of field checks is true exactly when every declared field's check passes |
| Engine.Equal | projects/gloo/pkg/api/v1/options.pb.equal.go:29-107 | nil interface or nil pointer: equal iff the receiver is nil; another type: unequal; a nil receiver equals nothing else; pointer and by-value operands are equal exactly when every field check passes |
| Engine.CompareRepeated | projects/gloo/pkg/api/v1/options.pb.equal.go:79-94 | the range loop is false when the lengths differ, and true exactly when every index-wise comparison passes |
| Engine.CompareMap | projects/gloo/pkg/api/v1/options.pb.equal.go:959-974 | the range loop is false when the sizes differ, and true exactly when every key of the receiver's map passes against the target's lookup, whatever the visiting order |
| EngineLaws.FirstFailure | projects/gloo/pkg/api/v1/options.pb.equal.go:49-106 | every field before the first failing field passes and that field fails; it lies past the last field exactly when the messages are equal |
| EngineLaws.LaterFieldsNotExamined | projects/gloo/pkg/api/v1/options.pb.equal.go:49-106 | once a field fails, changing any later field changes neither the outcome (unequal) nor the failing position |
| EngineLaws.EqualizerTakesPrecedence | projects/gloo/pkg/api/v1/options.pb.equal.go:49-57 | for a message field, an Equalizer's verdict decides alone, and proto.Equal is used only when there is none |
| EngineLaws.ByValueSameAsPointer | projects/gloo/pkg/api/v1/options.pb.equal.go:34-42 | a by-value operand compares exactly as a pointer to the same message |
| EngineLaws.StructuralListEqualIsEquality | projects/gloo/pkg/api/v1/options.pb.equal.go:862-877 | a repeated field compared by proto.Equal passes exactly when the two lists are identical |
| EngineLaws.PermutationUnequal | projects/gloo/pkg/api/v1/options.pb.equal.go:862-877 | a repeated field compared by proto.Equal fails when its elements are reordered into a different list; for any rule, see EngineLaws.SwappedPairUnequal |
| EngineLaws.SwappedPairUnequal | projects/gloo/pkg/api/v1/options.pb.equal.go:79-94 | for any rule, two elements that compare unequal make [x, y] and [y, x] unequal lists |
| EngineLaws.StructuralMapEqualIsEquality | projects/gloo/pkg/api/v1/options.pb.equal.go:959-974 | when the receiver's map holds no nil entry, a map field compared by proto.Equal passes exactly when the two maps are identical, whatever the target's map holds |
| EngineLaws.MissingKeyMatchesNilEntry | projects/gloo/pkg/api/v1/options.pb.equal.go:959-974 | a nil entry at a key absent from the other map passes, because a missing key reads as nil |
| EngineLaws.MapCheckNotSymmetric | projects/gloo/pkg/api/v1/options.pb.equal.go:959-974 | there are two maps that the map check accepts in one direction and rejects in the other |
| EngineLaws.InsertionOrderIrrelevant | projects/gloo/pkg/api/v1/options.pb.equal.go:959-974 | maps built from the same distinct entries in any order are the same map, so they compare the same |
| EngineLaws.MapEqualSameKeys | projects/gloo/pkg/api/v1/options.pb.equal.go:959-974 | under a lawful rule, two maps without nil entries that pass the map check have the same keys |
| EngineLaws.EqualReflexive | projects/gloo/pkg/api/v1/options.pb.equal.go:29-107 | with lawful Equalizers, a message equals a pointer to itself and a copy of itself, and a nil message equals the nil interface |
| EngineLaws.EqualSymmetric | projects/gloo/pkg/api/v1/options.pb.equal.go:29-107 | with lawful Equalizers and no nil map entries, m.Equal(&t) and t.Equal(&m) agree |
| EngineLaws.EqualTransitive | projects/gloo/pkg/api/v1/options.pb.equal.go:29-107 | with lawful Equalizers and no nil map entries in the first message, m equal to t and t equal to u give m equal to u |
| EngineLaws.EngineVerdict | projects/gloo/pkg/api/v1/options.pb.equal.go:986-994 | a generated Equal method called as the Equalizer of a field, with a possibly nil receiver and a possibly nil pointer argument; its contract is EngineLaws.EngineVerdictLawful |
| EngineLaws.EngineVerdictLawful | projects/gloo/pkg/api/v1/options.pb.equal.go:1401-1452 | a generated Equal method whose own Equalizers are lawful, and whose messages hold no nil map entry, is a lawful Equalizer: reflexive, symmetric, transitive, and never equal to nil when present |
| Destination.DestinationTypeEqual | projects/gloo/pkg/api/v1/options.pb.equal.go:1234-1301 | the DestinationType type switch; its contract is Destination.DestinationDiscriminantStrict |
| Destination.DestinationSpecEqual | projects/gloo/pkg/api/v1/options.pb.equal.go:1214-1304 | DestinationSpec.Equal; its contract is Destination.DestinationSpecAgrees |
| Destination.DestinationSpecAgrees | projects/gloo/pkg/api/v1/options.pb.equal.go:1214-1304 | the typed DestinationSpec.Equal gives the engine's answer on every receiver and operand |
| Destination.DestinationDiscriminantStrict | projects/gloo/pkg/api/v1/options.pb.equal.go:1234-1301 | specs that select different destination types are unequal, and two unset specs are equal |
| Destination.DestinationSpecReflexive | projects/gloo/pkg/api/v1/options.pb.equal.go:1214-1304 | with lawful Equalizers, a DestinationSpec equals a pointer to itself and a copy of itself |
| Destination.DestinationSpecSymmetric | projects/gloo/pkg/api/v1/options.pb.equal.go:1214-1304 | with lawful Equalizers, DestinationSpec equality is symmetric |
| Listener.ListenerOptionsEqual | projects/gloo/pkg/api/v1/options.pb.equal.go:29-107 | ListenerOptions.Equal; its contract is Listener.ListenerOptionsAgrees |
| Listener.ListenerOptionsAgrees | projects/gloo/pkg/api/v1/options.pb.equal.go:29-107 | the typed ListenerOptions.Equal gives the engine's answer on every receiver and operand |
| Listener.SocketOptionsLengthMismatch | projects/gloo/pkg/api/v1/options.pb.equal.go:79-81 | options whose SocketOptions differ in length are unequal |
| Listener.SocketOptionsOrderMatters | projects/gloo/pkg/api/v1/options.pb.equal.go:82-94 | swapping two unequal socket options makes the listener options unequal |
| Listener.ListenerOptionsReflexive | projects/gloo/pkg/api/v1/options.pb.equal.go:29-107 | with lawful Equalizers, ListenerOptions equal a pointer to themselves and a copy of themselves |
| Listener.ListenerOptionsSymmetric | projects/gloo/pkg/api/v1/options.pb.equal.go:29-107 | with lawful Equalizers, ListenerOptions equality is symmetric |
| Route.HostRewriteTypeEqual | projects/gloo/pkg/api/v1/options.pb.equal.go:1006-1052 | equal HostRewriteType groups select the same alternative; two unset groups are equal; two host_rewrite strings are equal exactly when identical |
| Route.HostRewriteAgrees | projects/gloo/pkg/api/v1/options.pb.equal.go:1006-1052 | the typed HostRewriteType switch gives the engine's oneof answer |
| Route.JwtConfigEqual | projects/gloo/pkg/api/v1/options.pb.equal.go:1171-1208 | the JwtConfig type switch; its agreement with the engine's oneof check is part of Route.RouteFieldsAgree |
| Route.RouteOptionsEqual | projects/gloo/pkg/api/v1/options.pb.equal.go:732-1211 | RouteOptions.Equal on the modelled fields; its contract is Route.RouteOptionsAgrees |
| Route.RouteFieldsAgree | projects/gloo/pkg/api/v1/options.pb.equal.go:782-1208 | field by field, the typed checks of the modelled RouteOptions fields are the schema's checks, in declaration order |
| Route.RouteOptionsAgrees | projects/gloo/pkg/api/v1/options.pb.equal.go:732-1211 | the typed RouteOptions.Equal gives the engine's answer on every receiver and operand |
| Route.UpgradesOrderMatters | projects/gloo/pkg/api/v1/options.pb.equal.go:862-877 | swapping two unequal upgrade configs makes the route options unequal |
| Route.RouteOptionsReflexive | projects/gloo/pkg/api/v1/options.pb.equal.go:732-1211 | with lawful Equalizers, RouteOptions equal a pointer to themselves and a copy of themselves |
| Route.MetadataInsertionOrderIrrelevant | projects/gloo/pkg/api/v1/options.pb.equal.go:959-974 | with lawful Equalizers, route options whose EnvoyMetadata is built from the same distinct entries in different orders are equal |
| Route.RouteOptionsSymmetric | projects/gloo/pkg/api/v1/options.pb.equal.go:732-1211 | with lawful Equalizers and no nil metadata entries, RouteOptions equality is symmetric |
| Route.MetadataNilEntryBreaksSymmetry | projects/gloo/pkg/api/v1/options.pb.equal.go:959-974 | with a nil metadata entry there are route options m and t where m.Equal(&t) holds and t.Equal(&m) does not |
| MaxStreamDuration.MaxStreamDurationEqual | projects/gloo/pkg/api/v1/options.pb.equal.go:1401-1452 | RouteOptions_MaxStreamDuration.Equal; its contract is MaxStreamDuration.MaxStreamDurationAgrees |
| MaxStreamDuration.MaxStreamDurationAgrees | projects/gloo/pkg/api/v1/options.pb.equal.go:1401-1452 | the typed RouteOptions_MaxStreamDuration.Equal gives the engine's answer on every receiver and operand |
| MaxStreamDuration.AsEqualizer | projects/gloo/pkg/api/v1/options.pb.equal.go:986-994 | the Equalizer RouteOptions.Equal calls for MaxStreamDuration: the field's value is the receiver and the target's field is a pointer argument; its contracts are MaxStreamDuration.AsEqualizerIsEngineVerdict and MaxStreamDuration.EqualizerLawful |
| MaxStreamDuration.AsEqualizerIsEngineVerdict | projects/gloo/pkg/api/v1/options.pb.equal.go:986-994 | RouteOptions' call of this Equalizer on its MaxStreamDuration field, with the field's own value as receiver and the target's field as argument, is the engine's verdict |
| MaxStreamDuration.EqualizerLawful | projects/gloo/pkg/api/v1/options.pb.equal.go:986-994 | when its own three fields' Equalizers are lawful, the Equalizer RouteOptions uses for MaxStreamDuration is lawful |
| MaxStreamDuration.MaxStreamDurationReflexive | projects/gloo/pkg/api/v1/options.pb.equal.go:1401-1452 | with lawful Equalizers, a RouteOptions_MaxStreamDuration equals a pointer to itself and a copy of itself |

## Left out

- RouteConfigurationOptions, HttpListenerOptions, TcpListenerOptions, VirtualHostOptions,
  WeightedDestinationOptions: these Equal methods have no typed instance. They consist only of message
  fields, plus, in VirtualHostOptions, two-alternative message oneofs of the JwtConfig shape. Each one is
  `Engine.Equal` over a schema of `MessageField` and `OneofField` kinds, already covered by the engine's
  lemmas.
- Route.RouteOptionsEqual: covers six of the RouteOptions fields. The other message fields, and the three
  rate-limit oneofs, are further instances of the `MessageField` and message-only `OneofField` kinds that
  the model already has.
- proto.Equal: its internals are not modelled. It is taken as equality of the modelled values, with nil
  equal only to nil.
- Equalizer: the Equalizers of nested types defined outside this file are foreign code. They are
  modelled as a verdict function per field, about which only the lawfulness lemmas assume anything. The one
  in-file Equalizer a modelled field uses, RouteOptions_MaxStreamDuration.Equal, is modelled
  (`MaxStreamDuration.AsEqualizer`) and proved lawful (`MaxStreamDuration.EqualizerLawful`).
- Route.RouteOptionsReflexive, Route.RouteOptionsSymmetric, Route.MetadataInsertionOrderIrrelevant,
  Route.MetadataNilEntryBreaksSymmetry: take the MaxStreamDuration field's rule as a lawful parameter rather
  than instantiating it with `MaxStreamDuration.AsEqualizer`. The model gives every nested message of a type
  one type parameter, so the RouteOptions lemmas cannot name that Equalizer's own message type. Its
  lawfulness is proved separately by `MaxStreamDuration.EqualizerLawful`.
- A oneof holding a wrapper whose pointer is a typed nil (a non-nil interface around a nil
  `*RouteOptions_HostRewrite`, say) is not modelled. An unset group is exactly the nil interface.
- The `default` branch compares interface values with `!=`. It is reached only when the receiver's group
  is nil, so it is modelled as "the target's group is unset too". Interface identity is not otherwise
  modelled.
- Scalar fields are not modelled, since none of these message types has one at top level. Map keys are
  strings, as in every map field of these types.
- How the result is used (caching, snapshot diffing) and anything outside `options.pb.equal.go` are not
  part of this model.
