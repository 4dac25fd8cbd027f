/**
  What the comparison algorithm of module Engine guarantees, and where it falls short of an
  equivalence relation.
*/
module EngineLaws {
  import opened Wrappers
  import opened GoStrings
  import opened Engine

  // ----- The field chain -----

  /** Where the generated code returns: the index of the first failing field check, or the
      number of fields when every check passes. */
  function FirstFailure<M(==)>(schema: seq<Kind<M>>, a: Body<M>, b: Body<M>): (i: nat)
    requires |a| == |schema| && |b| == |schema|
    ensures i <= |schema|
    ensures forall j :: 0 <= j < i ==> FieldEqual(schema[j], a[j], b[j])
    ensures i < |schema| ==> !FieldEqual(schema[i], a[i], b[i])
    ensures i == |schema| <==> FieldsEqual(schema, a, b)
    decreases |schema|
  {
    if schema == [] then 0
    else if !FieldEqual(schema[0], a[0], b[0]) then 0
    else 1 + FirstFailure(schema[1..], a[1..], b[1..])
  }

  /** Fields after the first failing check are never examined: changing them changes neither
      the result (false) nor the point of return. */
  lemma LaterFieldsNotExamined<M>(schema: seq<Kind<M>>, a: Body<M>, b: Body<M>, a': Body<M>, b': Body<M>)
    requires |a| == |schema| && |b| == |schema| && |a'| == |schema| && |b'| == |schema|
    requires FirstFailure(schema, a, b) < |schema|
    requires a'[..FirstFailure(schema, a, b) + 1] == a[..FirstFailure(schema, a, b) + 1]
    requires b'[..FirstFailure(schema, a, b) + 1] == b[..FirstFailure(schema, a, b) + 1]
    ensures FirstFailure(schema, a', b') == FirstFailure(schema, a, b)
    ensures !FieldsEqual(schema, a, b) && !FieldsEqual(schema, a', b')
  {
    var i := FirstFailure(schema, a, b);
    var i' := FirstFailure(schema, a', b');
    forall j | 0 <= j <= i
      ensures a'[j] == a[j] && b'[j] == b[j]
    {
      assert a'[..i + 1][j] == a[..i + 1][j];
      assert b'[..i + 1][j] == b[..i + 1][j];
    }
    assert forall j :: 0 <= j < i ==> FieldEqual(schema[j], a'[j], b'[j]);
    assert !FieldEqual(schema[i], a'[i], b'[i]);
  }

  /** A message field whose type has an Equalizer takes that Equalizer's verdict, even where
      the two messages differ structurally; one without takes proto.Equal's. */
  lemma EqualizerTakesPrecedence<M>(schema: seq<Kind<M>>, a: Body<M>, b: Body<M>, i: nat)
    requires |a| == |schema| && |b| == |schema| && i < |schema|
    requires schema[i].MessageField? && a[i].Message? && b[i].Message?
    requires forall j :: 0 <= j < |schema| && j != i ==> FieldEqual(schema[j], a[j], b[j])
    ensures schema[i].rule.Custom? ==> (FieldsEqual(schema, a, b) <==> schema[i].rule.verdict(a[i].msg, b[i].msg))
    ensures schema[i].rule.Structural? ==> (FieldsEqual(schema, a, b) <==> a[i].msg == b[i].msg)
  {
  }

  /** An operand passed by value compares exactly as a pointer to it does. */
  lemma ByValueSameAsPointer<M>(schema: seq<Kind<M>>, m: Option<Body<M>>, v: Body<M>)
    requires HasFields(schema, m) && |v| == |schema|
    ensures Equal(schema, m, ByValue(v)) == Equal(schema, m, Pointer(Some(v)))
  {
  }

  // ----- Repeated fields -----

  /** Under proto.Equal a repeated field passes exactly when the two lists are identical. */
  lemma StructuralListEqualIsEquality<M>(a: seq<Option<M>>, b: seq<Option<M>>)
    ensures ListEqual(Structural, a, b) <==> a == b
  {
    if ListEqual(Structural, a, b) {
      assert forall i :: 0 <= i < |a| ==> a[i] == b[i] by {
        forall i | 0 <= i < |a| ensures a[i] == b[i] {
          assert ElemEqual(Structural, a[i], b[i]);
        }
      }
    }
  }

  /** Order matters: a reordering of the same elements is a different list. The multiset premise
      only frames the statement as one about reorderings; the proof needs just `a != b`. */
  lemma PermutationUnequal<M>(a: seq<Option<M>>, b: seq<Option<M>>)
    requires multiset(a) == multiset(b) && a != b
    ensures !ListEqual(Structural, a, b)
  {
    StructuralListEqualIsEquality(a, b);
  }

  /** Two elements that do not compare equal, swapped, make the lists unequal under any rule. */
  lemma SwappedPairUnequal<M>(rule: Rule<M>, x: Option<M>, y: Option<M>)
    requires !ElemEqual(rule, x, y)
    ensures !ListEqual(rule, [x, y], [y, x])
  {
    assert [x, y][0] == x && [y, x][0] == y;
  }

  // ----- Map fields -----

  /** No map entry holds a nil message. */
  ghost predicate NilFreeMap<M>(m: map<GoString, Option<M>>)
  {
    forall k :: k in m ==> m[k].Some?
  }

  /** A subset as large as its superset is the whole superset. */
  lemma SameSizeSubset<K>(a: set<K>, b: set<K>)
    requires a <= b && |a| == |b|
    ensures a == b
  {
    assert a * b == a;
    assert a + b == b;
    assert |a - b| == 0;
    assert |b - a| == 0;
  }

  /** On a receiver map without nil entries and under proto.Equal, the map check is map equality: the
      order in which keys were inserted or are visited cannot matter. */
  lemma StructuralMapEqualIsEquality<M>(a: map<GoString, Option<M>>, b: map<GoString, Option<M>>)
    requires NilFreeMap(a)
    ensures MapEqual(Structural, a, b) <==> a == b
  {
    if MapEqual(Structural, a, b) {
      assert a.Keys <= b.Keys by {
        forall k | k in a ensures k in b {
          assert ElemEqual(Structural, a[k], Lookup(b, k));
        }
      }
      SameSizeSubset(a.Keys, b.Keys);
      forall k | k in a ensures a[k] == b[k] {
        assert ElemEqual(Structural, a[k], Lookup(b, k));
      }
    }
  }

  /** A key missing from `b` is read as a nil message, so a nil entry of `a` matches it: two
      maps with different keys can pass the map check. */
  lemma MissingKeyMatchesNilEntry<M>()
    ensures var k0: GoString, k1: GoString := [0], [1];
            var a: map<GoString, Option<M>> := map[k0 := None];
            var b: map<GoString, Option<M>> := map[k1 := None];
            MapEqual(Structural, a, b)
  {
    var k0: GoString, k1: GoString := [0], [1];
    var a: map<GoString, Option<M>> := map[k0 := None];
    var b: map<GoString, Option<M>> := map[k1 := None];
    assert |a| == 1 && |b| == 1;
    assert Lookup(b, k0) == None;
  }

  /** The map check is not symmetric when an entry is nil: `a` passes against `b`, but `b`
      fails against `a`, because `b`'s extra key meets a missing (nil) value in `a`. */
  lemma MapCheckNotSymmetric<M>(x: M, y: M)
    ensures var k0: GoString, k1: GoString, k2: GoString := [0], [1], [2];
            var a: map<GoString, Option<M>> := map[k0 := None, k1 := Some(x)];
            var b: map<GoString, Option<M>> := map[k1 := Some(x), k2 := Some(y)];
            MapEqual(Structural, a, b) && !MapEqual(Structural, b, a)
  {
    var k0: GoString, k1: GoString, k2: GoString := [0], [1], [2];
    var a: map<GoString, Option<M>> := map[k0 := None, k1 := Some(x)];
    var b: map<GoString, Option<M>> := map[k1 := Some(x), k2 := Some(y)];
    assert k0 != k1 && k1 != k2 && k0 != k2;
    assert a.Keys == {k0, k1} && b.Keys == {k1, k2};
    assert |a| == 2 && |b| == 2;
    assert Lookup(b, k0) == None && Lookup(b, k1) == Some(x);
    assert Lookup(a, k2) == None;
    assert !ElemEqual(Structural, b[k2], Lookup(a, k2));
  }

  /** A Go map built by inserting `entries` in order; a later entry for a key replaces an
      earlier one. */
  function FromEntries<M>(entries: seq<(GoString, Option<M>)>): map<GoString, Option<M>>
    decreases |entries|
  {
    if entries == [] then map[]
    else
      var last := entries[|entries| - 1];
      FromEntries(entries[..|entries| - 1])[last.0 := last.1]
  }

  /** No key is inserted twice. */
  predicate DistinctKeys<M>(entries: seq<(GoString, Option<M>)>)
  {
    forall i, j :: 0 <= i < j < |entries| ==> entries[i].0 != entries[j].0
  }

  /** With distinct keys, the map holds exactly the inserted pairs. */
  lemma {:induction false} FromEntriesHolds<M>(entries: seq<(GoString, Option<M>)>)
    requires DistinctKeys(entries)
    ensures forall k :: k in FromEntries(entries) ==> exists i :: 0 <= i < |entries| && entries[i].0 == k
    ensures forall i :: 0 <= i < |entries| ==>
              entries[i].0 in FromEntries(entries) && FromEntries(entries)[entries[i].0] == entries[i].1
    decreases |entries|
  {
    if entries != [] {
      var init := entries[..|entries| - 1];
      assert DistinctKeys(init) by {
        forall i, j | 0 <= i < j < |init| ensures init[i].0 != init[j].0 {
          assert init[i] == entries[i] && init[j] == entries[j];
        }
      }
      FromEntriesHolds(init);
      forall k | k in FromEntries(entries)
        ensures exists i :: 0 <= i < |entries| && entries[i].0 == k
      {
        if k != entries[|entries| - 1].0 {
          assert k in FromEntries(init);
          var i :| 0 <= i < |init| && init[i].0 == k;
          assert entries[i] == init[i];
        }
      }
      forall i | 0 <= i < |entries|
        ensures entries[i].0 in FromEntries(entries) && FromEntries(entries)[entries[i].0] == entries[i].1
      {
        if i < |entries| - 1 {
          assert entries[i] == init[i];
        }
      }
    }
  }

  /** Two insertion orders of the same key/value pairs build the same map, so they pass the
      map check against each other wherever the map check is reflexive. */
  lemma {:induction false} InsertionOrderIrrelevant<M>(ps: seq<(GoString, Option<M>)>, qs: seq<(GoString, Option<M>)>)
    requires DistinctKeys(ps) && DistinctKeys(qs) && multiset(ps) == multiset(qs)
    ensures FromEntries(ps) == FromEntries(qs)
  {
    FromEntriesHolds(ps);
    FromEntriesHolds(qs);
    var mp, mq := FromEntries(ps), FromEntries(qs);
    forall k | k in mp ensures k in mq && mq[k] == mp[k] {
      var i :| 0 <= i < |ps| && ps[i].0 == k;
      assert ps[i] in multiset(qs);
      var j :| 0 <= j < |qs| && qs[j] == ps[i];
    }
    forall k | k in mq ensures k in mp {
      var j :| 0 <= j < |qs| && qs[j].0 == k;
      assert qs[j] in multiset(ps);
      var i :| 0 <= i < |ps| && ps[i] == qs[j];
    }
  }

  // ----- Equivalence -----

  /** An Equalizer that behaves like an equality: reflexive, symmetric, transitive, and
      never equating a nil message with a present one (the generated guard's own rule). */
  ghost predicate LawfulRule<M(!new)>(rule: Rule<M>)
  {
    match rule
    case Structural => true
    case Custom(v) =>
      && (forall a :: v(a, a))
      && (forall a, b :: v(a, b) ==> v(b, a))
      && (forall a, b, c :: v(a, b) && v(b, c) ==> v(a, c))
      && (forall x :: !v(Some(x), None))
  }

  ghost predicate LawfulKind<M(!new)>(kind: Kind<M>)
  {
    match kind
    case MessageField(rule) => LawfulRule(rule)
    case RepeatedField(rule) => LawfulRule(rule)
    case MapField(rule) => LawfulRule(rule)
    case OneofField(alts) => forall j :: 0 <= j < |alts| ==> (alts[j].MessageAlt? ==> LawfulRule(alts[j].rule))
  }

  /** Every rule the schema uses is lawful. */
  ghost predicate LawfulSchema<M(!new)>(schema: seq<Kind<M>>)
  {
    forall i :: 0 <= i < |schema| ==> LawfulKind(schema[i])
  }

  /** A field value of the field's own kind; a selected oneof alternative exists and holds a
      payload of its kind. Static typing guarantees this for every Go value. */
  predicate Fits<M>(kind: Kind<M>, v: Value<M>)
  {
    match kind
    case MessageField(_) => v.Message?
    case RepeatedField(_) => v.Repeated?
    case MapField(_) => v.Map?
    case OneofField(alts) =>
      v.Oneof? &&
      (v.choice.Selected? ==>
         v.choice.alt < |alts| &&
         (if alts[v.choice.alt].StringAlt? then v.choice.payload.Text? else v.choice.payload.Sub?))
  }

  /** A well-typed instance of the schema. */
  predicate Conforms<M>(schema: seq<Kind<M>>, body: Body<M>)
  {
    |body| == |schema| && forall i :: 0 <= i < |schema| ==> Fits(schema[i], body[i])
  }

  /** No map field of the message holds a nil entry. */
  ghost predicate NilFree<M>(body: Body<M>)
  {
    forall i :: 0 <= i < |body| ==> (body[i].Map? ==> NilFreeMap(body[i].entries))
  }

  lemma ElemLaws<M(!new)>(rule: Rule<M>, a: Option<M>, b: Option<M>, c: Option<M>)
    requires LawfulRule(rule)
    ensures ElemEqual(rule, a, a)
    ensures ElemEqual(rule, a, b) ==> ElemEqual(rule, b, a)
    ensures ElemEqual(rule, a, b) && ElemEqual(rule, b, c) ==> ElemEqual(rule, a, c)
    ensures a.Some? ==> !ElemEqual(rule, a, None) && !ElemEqual(rule, None, a)
  {
  }

  /** Without nil entries in `a`, a passing map check means both maps have the same keys. */
  lemma MapEqualSameKeys<M(!new)>(rule: Rule<M>, a: map<GoString, Option<M>>, b: map<GoString, Option<M>>)
    requires LawfulRule(rule) && NilFreeMap(a) && MapEqual(rule, a, b)
    ensures a.Keys == b.Keys
  {
    forall k | k in a ensures k in b {
      ElemLaws(rule, a[k], Lookup(b, k), Lookup(b, k));
    }
    SameSizeSubset(a.Keys, b.Keys);
  }

  lemma FieldReflexive<M(!new)>(kind: Kind<M>, v: Value<M>)
    requires LawfulKind(kind) && Fits(kind, v)
    ensures FieldEqual(kind, v, v)
  {
    match kind
    case MessageField(rule) => ElemLaws(rule, v.msg, v.msg, v.msg);
    case RepeatedField(rule) =>
      forall i | 0 <= i < |v.items| ensures ElemEqual(rule, v.items[i], v.items[i]) {
        ElemLaws(rule, v.items[i], v.items[i], v.items[i]);
      }
    case MapField(rule) =>
      forall k | k in v.entries ensures ElemEqual(rule, v.entries[k], Lookup(v.entries, k)) {
        ElemLaws(rule, v.entries[k], v.entries[k], v.entries[k]);
      }
    case OneofField(alts) =>
      if v.choice.Selected? {
        var alt := alts[v.choice.alt];
        if alt.MessageAlt? {
          ElemLaws(alt.rule, v.choice.payload.sub, v.choice.payload.sub, v.choice.payload.sub);
        }
      }
  }

  lemma PayloadLaws<M(!new)>(alt: Alt<M>, p: Payload<M>, q: Payload<M>, s: Payload<M>)
    requires alt.MessageAlt? ==> LawfulRule(alt.rule)
    ensures PayloadEqual(alt, p, q) ==> PayloadEqual(alt, q, p)
    ensures PayloadEqual(alt, p, q) && PayloadEqual(alt, q, s) ==> PayloadEqual(alt, p, s)
  {
    if alt.MessageAlt? && p.Sub? && q.Sub? && s.Sub? {
      ElemLaws(alt.rule, p.sub, q.sub, s.sub);
    }
  }

  lemma FieldSymmetric<M(!new)>(kind: Kind<M>, a: Value<M>, b: Value<M>)
    requires LawfulKind(kind)
    requires a.Map? ==> NilFreeMap(a.entries)
    requires b.Map? ==> NilFreeMap(b.entries)
    ensures FieldEqual(kind, a, b) ==> FieldEqual(kind, b, a)
  {
    if FieldEqual(kind, a, b) {
      match kind
      case MessageField(rule) => ElemLaws(rule, a.msg, b.msg, b.msg);
      case RepeatedField(rule) =>
        forall i | 0 <= i < |b.items| ensures ElemEqual(rule, b.items[i], a.items[i]) {
          ElemLaws(rule, a.items[i], b.items[i], b.items[i]);
        }
      case MapField(rule) =>
        MapEqualSameKeys(rule, a.entries, b.entries);
        forall k | k in b.entries ensures ElemEqual(rule, b.entries[k], Lookup(a.entries, k)) {
          ElemLaws(rule, a.entries[k], b.entries[k], b.entries[k]);
        }
      case OneofField(alts) =>
        if a.choice.Selected? {
          PayloadLaws(alts[a.choice.alt], a.choice.payload, b.choice.payload, b.choice.payload);
        }
    }
  }

  lemma FieldTransitive<M(!new)>(kind: Kind<M>, a: Value<M>, b: Value<M>, c: Value<M>)
    requires LawfulKind(kind)
    requires a.Map? ==> NilFreeMap(a.entries)
    ensures FieldEqual(kind, a, b) && FieldEqual(kind, b, c) ==> FieldEqual(kind, a, c)
  {
    if FieldEqual(kind, a, b) && FieldEqual(kind, b, c) {
      match kind
      case MessageField(rule) => ElemLaws(rule, a.msg, b.msg, c.msg);
      case RepeatedField(rule) =>
        forall i | 0 <= i < |a.items| ensures ElemEqual(rule, a.items[i], c.items[i]) {
          ElemLaws(rule, a.items[i], b.items[i], c.items[i]);
        }
      case MapField(rule) =>
        MapEqualSameKeys(rule, a.entries, b.entries);
        // a present value never matches a nil one, so `b` holds no nil entry either
        forall k | k in b.entries ensures b.entries[k].Some? {
          ElemLaws(rule, a.entries[k], b.entries[k], b.entries[k]);
        }
        MapEqualSameKeys(rule, b.entries, c.entries);
        forall k | k in a.entries ensures ElemEqual(rule, a.entries[k], Lookup(c.entries, k)) {
          ElemLaws(rule, a.entries[k], b.entries[k], c.entries[k]);
        }
      case OneofField(alts) =>
        if a.choice.Selected? {
          PayloadLaws(alts[a.choice.alt], a.choice.payload, b.choice.payload, c.choice.payload);
        }
    }
  }

  /** Equality is reflexive on well-typed messages: a message equals itself by pointer and by
      value, and a nil receiver equals the nil interface and the nil pointer. */
  lemma EqualReflexive<M(!new)>(schema: seq<Kind<M>>, m: Option<Body<M>>)
    requires LawfulSchema(schema) && (m.Some? ==> Conforms(schema, m.value))
    ensures Equal(schema, m, Pointer(m))
    ensures m.Some? ==> Equal(schema, m, ByValue(m.value))
    ensures m.None? ==> Equal(schema, m, NilInterface)
  {
    if m.Some? {
      forall i | 0 <= i < |schema| ensures FieldEqual(schema[i], m.value[i], m.value[i]) {
        FieldReflexive(schema[i], m.value[i]);
      }
    }
  }

  /** Equality is symmetric on messages whose map fields hold no nil entry
      (MapCheckNotSymmetric shows the restriction is needed). */
  lemma EqualSymmetric<M(!new)>(schema: seq<Kind<M>>, m: Option<Body<M>>, t: Option<Body<M>>)
    requires LawfulSchema(schema) && HasFields(schema, m) && HasFields(schema, t)
    requires m.Some? ==> NilFree(m.value)
    requires t.Some? ==> NilFree(t.value)
    ensures Equal(schema, m, Pointer(t)) == Equal(schema, t, Pointer(m))
  {
    if m.Some? && t.Some? {
      forall i | 0 <= i < |schema|
        ensures FieldEqual(schema[i], m.value[i], t.value[i]) <==> FieldEqual(schema[i], t.value[i], m.value[i])
      {
        FieldSymmetric(schema[i], m.value[i], t.value[i]);
        FieldSymmetric(schema[i], t.value[i], m.value[i]);
      }
    }
  }

  /** Equality is transitive when the first message holds no nil map entry. */
  lemma EqualTransitive<M(!new)>(schema: seq<Kind<M>>, m: Option<Body<M>>, t: Option<Body<M>>, u: Option<Body<M>>)
    requires LawfulSchema(schema) && HasFields(schema, m) && HasFields(schema, t) && HasFields(schema, u)
    requires m.Some? ==> NilFree(m.value)
    ensures Equal(schema, m, Pointer(t)) && Equal(schema, t, Pointer(u)) ==> Equal(schema, m, Pointer(u))
  {
    if m.Some? && t.Some? && u.Some? && Equal(schema, m, Pointer(t)) && Equal(schema, t, Pointer(u)) {
      forall i | 0 <= i < |schema| ensures FieldEqual(schema[i], m.value[i], u.value[i]) {
        FieldTransitive(schema[i], m.value[i], t.value[i], u.value[i]);
      }
    }
  }

  // ----- Generated Equal methods as Equalizers -----

  /** `a.Equal(b)` for a nested message type that has a generated Equal method: the receiver
      `a` and the argument `b` are both possibly nil pointers, `f` gives the schema's view of a
      message. A message without one value per field compares as unequal. */
  function EngineVerdict<M, N(==)>(schema: seq<Kind<N>>, f: M -> Body<N>, a: Option<M>, b: Option<M>): bool
  {
    var x, y := LiftOption(a, f), LiftOption(b, f);
    if HasFields(schema, x) && HasFields(schema, y) then Equal(schema, x, Pointer(y)) else false
  }

  /** A generated Equal method used as the Equalizer of a field is lawful when its own rules are
      and its messages are well typed with no nil map entry. */
  lemma EngineVerdictLawful<M(!new), N(!new)>(schema: seq<Kind<N>>, f: M -> Body<N>)
    requires LawfulSchema(schema)
    requires forall x :: Conforms(schema, f(x)) && NilFree(f(x))
    ensures LawfulRule(Custom((a: Option<M>, b: Option<M>) => EngineVerdict(schema, f, a, b)))
  {
    forall a: Option<M> ensures EngineVerdict(schema, f, a, a) {
      EqualReflexive(schema, LiftOption(a, f));
    }
    forall a: Option<M>, b: Option<M> | EngineVerdict(schema, f, a, b) ensures EngineVerdict(schema, f, b, a) {
      EqualSymmetric(schema, LiftOption(a, f), LiftOption(b, f));
    }
    forall a: Option<M>, b: Option<M>, c: Option<M> | EngineVerdict(schema, f, a, b) && EngineVerdict(schema, f, b, c)
      ensures EngineVerdict(schema, f, a, c)
    {
      EqualTransitive(schema, LiftOption(a, f), LiftOption(b, f), LiftOption(c, f));
    }
  }

  /** Lawfulness depends only on the verdicts a rule gives. */
  lemma LawfulBySameVerdicts<M(!new)>(v: (Option<M>, Option<M>) -> bool, w: (Option<M>, Option<M>) -> bool)
    requires forall a, b :: v(a, b) == w(a, b)
    requires LawfulRule(Custom(w))
    ensures LawfulRule(Custom(v))
  {
  }

  // ----- Typed instances -----

  /** The guard decides the same for a typed message and for its schema view. */
  lemma GuardLift<T, U>(m: Option<T>, that: Operand<T>, f: T -> U)
    ensures Guard(m, that).Decided? ==> Guard(LiftOption(m, f), LiftOperand(that, f)) == Decided(Guard(m, that).equal)
    ensures Guard(m, that).CompareFields? ==>
              Guard(LiftOption(m, f), LiftOperand(that, f)) == CompareFields(f(Guard(m, that).m), f(Guard(m, that).target))
  {
  }
}
