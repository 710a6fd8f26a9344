/**
 What a compiled message is, said of its descriptor and its options alone: which of its
 fields are compiled, in which order, with which rules, and when a field or the whole
 message is an error instead. The build is proved to give just that.
 */
module CompiledRules {
  import opened Wrappers
  import opened Descriptors
  import opened Elements
  import opened RuleBuild
  import opened RuleBuildLaws
  import Codec

  // ------------------------------------------------------------------ descriptions

  /** The message type in a field's kind. */
  function TypeHeld(kind: Kind): Option<MessageIndex> {
    match kind
    case Singular(k) => if k.MessageOf? then Some(k.message) else None
    case ListOf(k) => if k.MessageOf? then Some(k.message) else None
    case MapOf(_, k) => if k.MessageOf? then Some(k.message) else None
  }

  /** A descriptor as the runtime is told of it. */
  ghost predicate Described(b: Builder, f: FieldDescriptor, d: Field) {
    && d.number == f.number && d.name == f.name && d.kind == f.kind
    && (d.hasPresence <==> f.kind.Singular? && (f.presence.Explicit? || f.presence.LegacyRequired?))
    && match TypeHeld(f.kind)
       case None => d.messageType.None?
       case Some(m) => m in b.types && d.messageType == Some(b.types[m])
  }

  /** A message refers to a type when a field holds it, alone, in a list or as a map's values. */
  lemma {:induction false} RefersExactly(pool: Pool, a: MessageIndex, m: MessageIndex)
    ensures Refers(pool, a, m) <==> a < |pool| && exists f :: f in pool[a].fields && TypeHeld(f.kind) == Some(m)
  {
    if a < |pool| {
      forall f | f in pool[a].fields ensures MessageType(f) == TypeHeld(f.kind) {
      }
    }
  }

  lemma {:induction false} DescribeExactly(b: Builder, f: FieldDescriptor)
    requires b.Describe(f).Done?
    ensures Described(b, f, b.Describe(f).value)
  {
  }

  // ------------------------------------------------------------------- custom rules

  function OrEmpty(s: Option<string>): string {
    match s case Some(text) => text case None => ""
  }

  /** The element of a rule path that names the `index`-th bare expression, or the `index`-th rule. */
  function ExpressionElement(index: nat): Element {
    Element(Some(29), Some("cel_expression"), Some(9), None, None, Some(Index(index)))
  }

  function RuleElement(index: nat): Element {
    Element(Some(23), Some("cel"), Some(11), None, None, Some(Index(index)))
  }

  /** The rules that options declare, in order; a field's have paths, below `prefix`. */
  ghost predicate Declare(celExpression: seq<string>, cel: seq<Rule>, prefix: Option<seq<Element>>,
                          rules: seq<CelRule>) {
    && |rules| == |celExpression| + |cel|
    && (forall i :: 0 <= i < |celExpression| ==>
          rules[i] == CelRule(celExpression[i], "", celExpression[i], 0,
                              if prefix.Some? then prefix.value + [ExpressionElement(i)] else []))
    && (forall i :: 0 <= i < |cel| ==>
          rules[|celExpression| + i]
          == CelRule(OrEmpty(cel[i].id), OrEmpty(cel[i].message), OrEmpty(cel[i].expression), 0,
                     if prefix.Some? then prefix.value + [RuleElement(i)] else []))
  }

  ghost predicate SourcesOf(rules: seq<CelRule>, es: seq<Expression>) {
    |es| == |rules| && forall i :: 0 <= i < |es| ==> es[i] == Expression(rules[i].expression, rules[i].ruleFieldNumber)
  }

  /** The rules compiled, together; nothing when there are none. */
  ghost predicate Runs(b: Builder, bound: Option<Bound>, rules: seq<CelRule>, programs: Option<CelPrograms>) {
    if rules == [] then programs.None?
    else
      && programs.Some? && programs.value.rules == rules
      && exists es :: SourcesOf(rules, es) && b.compile(bound, es) == Ok(programs.value.program)
  }

  ghost predicate Refuses(b: Builder, bound: Option<Bound>, rules: seq<CelRule>) {
    rules != [] && exists es :: SourcesOf(rules, es) && b.compile(bound, es).Err?
  }

  ghost predicate CustomIs(b: Builder, celExpression: seq<string>, cel: seq<Rule>, prefix: Option<seq<Element>>,
                           programs: Option<CelPrograms>) {
    exists rules :: Declare(celExpression, cel, prefix, rules) && Runs(b, None, rules, programs)
  }

  ghost predicate CustomRefused(b: Builder, celExpression: seq<string>, cel: seq<Rule>, prefix: Option<seq<Element>>) {
    exists rules :: Declare(celExpression, cel, prefix, rules) && Refuses(b, None, rules)
  }

  lemma {:induction false} CompileExactly(b: Builder, bound: Option<Bound>, rules: seq<CelRule>)
    ensures Compile(b, CelExpressions(rules, bound)).Done? ==>
              Runs(b, bound, rules, Compile(b, CelExpressions(rules, bound)).value)
    ensures Compile(b, CelExpressions(rules, bound)).Failed? <==> Refuses(b, bound, rules)
    ensures !Compile(b, CelExpressions(rules, bound)).Panicked?
  {
    assert SourcesOf(rules, Sources(rules));
    forall es | SourcesOf(rules, es) ensures es == Sources(rules) {
    }
  }

  lemma {:induction false} DeclaredExactly(celExpression: seq<string>, cel: seq<Rule>, pathed: bool,
                                           prefix: seq<Element>)
    ensures var custom := CustomRules(celExpression, cel, pathed, prefix);
            && custom.bound.None?
            && Declare(celExpression, cel, if pathed then Some(prefix) else None, custom.rules)
  {
  }

  lemma {:induction false} DeclareOnce(celExpression: seq<string>, cel: seq<Rule>, prefix: Option<seq<Element>>,
                                       a: seq<CelRule>, b: seq<CelRule>)
    requires Declare(celExpression, cel, prefix, a) && Declare(celExpression, cel, prefix, b)
    ensures a == b
  {
    forall i | 0 <= i < |a| ensures a[i] == b[i] {
      if i >= |celExpression| {
        var rule := cel[i - |celExpression|];
        assert a[|celExpression| + (i - |celExpression|)] == a[i] && b[|celExpression| + (i - |celExpression|)] == b[i];
      }
    }
  }

  lemma {:induction false} CustomExactly(b: Builder, celExpression: seq<string>, cel: seq<Rule>, pathed: bool,
                                         prefix: seq<Element>)
    ensures var path := if pathed then Some(prefix) else None;
            var compiled := Compile(b, CustomRules(celExpression, cel, pathed, prefix));
            && (compiled.Done? ==> CustomIs(b, celExpression, cel, path, compiled.value))
            && (compiled.Failed? <==> CustomRefused(b, celExpression, cel, path))
            && !compiled.Panicked?
  {
    var custom := CustomRules(celExpression, cel, pathed, prefix);
    var path := if pathed then Some(prefix) else None;
    DeclaredExactly(celExpression, cel, pathed, prefix);
    CompileExactly(b, None, custom.rules);
    assert custom == CelExpressions(custom.rules, None);
    forall rules | Declare(celExpression, cel, path, rules) ensures rules == custom.rules {
      DeclareOnce(celExpression, cel, path, rules, custom.rules);
    }
  }

  // ----------------------------------------------------------------- standard rules

  /** The case of the `type` oneof that goes with each scalar. */
  const SCALAR_CASES: set<(Scalar, string)> := {
    (Double, "double"), (Float, "float"), (Int32, "int32"), (Int64, "int64"), (Uint32, "uint32"), (Uint64, "uint64"),
    (Sint32, "sint32"), (Sint64, "sint64"), (Fixed32, "fixed32"), (Fixed64, "fixed64"), (Sfixed32, "sfixed32"),
    (Sfixed64, "sfixed64"), (Bool, "bool"), (String, "string"), (Bytes, "bytes")}

  const WRAPPER_CASES: set<(string, string)> := {
    ("google.protobuf.BoolValue", "bool"), ("google.protobuf.BytesValue", "bytes"),
    ("google.protobuf.DoubleValue", "double"), ("google.protobuf.FloatValue", "float"),
    ("google.protobuf.Int32Value", "int32"), ("google.protobuf.Int64Value", "int64"),
    ("google.protobuf.StringValue", "string"), ("google.protobuf.UInt32Value", "uint32"),
    ("google.protobuf.UInt64Value", "uint64")}

  const WELL_KNOWN_CASES: set<(string, string)> := {
    ("google.protobuf.Any", "any"), ("google.protobuf.Duration", "duration"),
    ("google.protobuf.FieldMask", "field_mask"), ("google.protobuf.Timestamp", "timestamp")}

  predicate NamedLikeWrapper(pool: Pool, m: MessageIndex) {
    m < |pool| && exists c :: c in WRAPPER_CASES && c.0 == pool[m].fullName
  }

  /** The rules are of the case that goes with the kind. */
  ghost predicate CaseFits(pool: Pool, kind: Kind, standard: RulesType) {
    match kind
    case ListOf(_) => standard.Repeated?
    case MapOf(_, _) => standard.Map?
    case Singular(ScalarOf(s)) => standard.Leaf? && (s, standard.name) in SCALAR_CASES
    case Singular(EnumOf(_)) => standard.Leaf? && standard.name == "enum"
    case Singular(MessageOf(m)) =>
      standard.Leaf? && m < |pool| && (pool[m].fullName, standard.name) in WRAPPER_CASES + WELL_KNOWN_CASES
  }

  /** Field 1 of a message, which holds a wrapper's scalar. */
  ghost predicate HasFirst(pool: Pool, m: MessageIndex) {
    m < |pool| && exists f :: f in pool[m].fields && f.number == 1
  }

  ghost predicate FirstIs(b: Builder, m: MessageIndex, d: Field) {
    m < |b.pool| && exists f :: f in b.pool[m].fields && f.number == 1 && Described(b, f, d)
  }

  /** `unique` over messages, which only wrappers have a meaning for. */
  predicate ComparesMessages(kind: Kind, standard: RulesType) {
    kind.ListOf? && kind.element.MessageOf? && standard.Repeated? && standard.unique == Some(true)
  }

  /** The field that is read in place of a wrapper, for the rules of a wrapper or the uniqueness of wrappers. */
  ghost predicate WrapperIs(b: Builder, kind: Kind, standard: RulesType, wrapper: Option<Field>) {
    match kind
    case Singular(MessageOf(m)) =>
      if NamedLikeWrapper(b.pool, m) && HasFirst(b.pool, m) then wrapper.Some? && FirstIs(b, m, wrapper.value)
      else wrapper.None?
    case ListOf(MessageOf(m)) =>
      if ComparesMessages(kind, standard) then wrapper.Some? && FirstIs(b, m, wrapper.value) else wrapper.None?
    case _ => wrapper.None?
  }

  ghost predicate CannotCompare(pool: Pool, kind: Kind, standard: RulesType) {
    ComparesMessages(kind, standard)
    && !(NamedLikeWrapper(pool, kind.element.message) && HasFirst(pool, kind.element.message))
  }

  /** Enums are checked against their declared values. */
  function EnumIndex(kind: Kind): Option<nat> {
    match kind
    case Singular(EnumOf(i)) => Some(i)
    case _ => None
  }

  ghost predicate StandardIs(b: Builder, kind: Kind, standard: RulesType, prefix: seq<Element>, v: ValueValidator) {
    && CaseFits(b.pool, kind, standard) && !CannotCompare(b.pool, kind, standard)
    && WrapperIs(b, kind, standard, v.wrapper)
    && match b.native(standard, prefix, EnumIndex(kind))
       case Err(_) => false
       case Ok(native) =>
         v.checks == Some(native.checks) && Runs(b, Some(native.bound), native.predefined, v.predefined)
  }

  ghost predicate StandardRefused(b: Builder, kind: Kind, standard: RulesType, prefix: seq<Element>) {
    || !CaseFits(b.pool, kind, standard) || CannotCompare(b.pool, kind, standard)
    || match b.native(standard, prefix, EnumIndex(kind))
       case Err(_) => true
       case Ok(native) => Refuses(b, Some(native.bound), native.predefined)
  }

  lemma {:induction false} WrapperCases(name: string)
    ensures match WrapperRules(name)
            case Some(rules) => (name, rules) in WRAPPER_CASES
            case None => forall c :: c in WRAPPER_CASES ==> c.0 != name
    ensures forall rules :: (name, rules) in WRAPPER_CASES ==> WrapperRules(name) == Some(rules)
  {
  }

  lemma {:induction false} WellKnownCases(name: string)
    ensures forall rules :: (name, rules) in WRAPPER_CASES + WELL_KNOWN_CASES <==> WellKnownRules(name) == Some(rules)
  {
    WrapperCases(name);
  }

  lemma {:induction false} ScalarCases(s: Scalar, name: string)
    ensures (s, name) in SCALAR_CASES <==> ScalarName(s) == name
  {
  }

  lemma {:induction false} FitsExactly(pool: Pool, target: Target, standard: RulesType)
    ensures CaseFits(pool, target.kind, standard) <==> ExpectedRules(pool, target) == Some(RulesName(standard))
  {
    if standard.Leaf? {
      match target.kind
      case Singular(ScalarOf(s)) => ScalarCases(s, standard.name);
      case Singular(MessageOf(m)) => if m < |pool| { WellKnownCases(pool[m].fullName); }
      case _ =>
    }
  }

  lemma {:induction false} FirstExactly(b: Builder, m: MessageIndex)
    requires m < |b.pool|
    ensures var first := FieldByNumber(b.pool[m].fields, 1);
            && (first.Some? <==> HasFirst(b.pool, m))
            && (first.Some? && b.Describe(first.value).Done? ==> FirstIs(b, m, b.Describe(first.value).value))
  {
    var first := FieldByNumber(b.pool[m].fields, 1);
    if first.Some? && b.Describe(first.value).Done? {
      DescribeExactly(b, first.value);
    }
  }

  lemma {:induction false} LikeWrapper(pool: Pool, m: MessageIndex)
    requires m < |pool|
    ensures NamedLikeWrapper(pool, m) <==> WrapperRules(pool[m].fullName).Some?
  {
    WrapperCases(pool[m].fullName);
  }

  lemma {:induction false} WrapperOne(b: Builder, target: Target, standard: RulesType)
    requires CaseFits(b.pool, target.kind, standard) && target.kind.Singular? && target.kind.kind.MessageOf?
    ensures WrapperField(b, target, standard).Done? ==>
              WrapperIs(b, target.kind, standard, WrapperField(b, target, standard).value)
    ensures !WrapperField(b, target, standard).Failed?
  {
    FirstExactly(b, target.kind.kind.message);
    LikeWrapper(b.pool, target.kind.kind.message);
    WrapperCases(b.pool[target.kind.kind.message].fullName);
  }

  lemma {:induction false} WrapperExactly(b: Builder, target: Target, standard: RulesType)
    requires CaseFits(b.pool, target.kind, standard)
    ensures WrapperField(b, target, standard).Done? ==>
              !CannotCompare(b.pool, target.kind, standard)
              && WrapperIs(b, target.kind, standard, WrapperField(b, target, standard).value)
    ensures WrapperField(b, target, standard).Failed? ==> CannotCompare(b.pool, target.kind, standard)
  {
    if target.kind.Singular? && target.kind.kind.MessageOf? {
      WrapperOne(b, target, standard);
    } else if target.Value().MessageOf? && target.Value().message < |b.pool| {
      FirstExactly(b, target.Value().message);
      LikeWrapper(b.pool, target.Value().message);
    }
  }

  lemma {:induction false} EnumExactly(pool: Pool, target: Target, standard: RulesType)
    requires CaseFits(pool, target.kind, standard)
    ensures EnumIndex(target.kind) == if IsScalarRules(standard) && target.kind.Singular? && target.kind.kind.EnumOf?
                                      then Some(target.kind.kind.index) else None
  {
  }

  // -------------------------------------------------------------------------- values

  /** The rules of one value, compiled. */
  ghost predicate ValueIs(b: Builder, kind: Kind, rules: FieldRules, prefix: seq<Element>, v: ValueValidator) {
    && CustomIs(b, rules.celExpression, rules.cel, Some(prefix), v.custom)
    && (match rules.standard
        case None => v.checks.None? && v.wrapper.None? && v.predefined.None?
        case Some(standard) => StandardIs(b, kind, standard, prefix, v))
    && v.nested == if kind.Singular? && kind.kind.MessageOf? then Some(kind.kind.message) else None
  }

  /** The rules of one value are an error: custom or standard ones do not compile, or these are not for the value. */
  ghost predicate ValueRefused(b: Builder, kind: Kind, rules: FieldRules, prefix: seq<Element>) {
    || CustomRefused(b, rules.celExpression, rules.cel, Some(prefix))
    || (rules.standard.Some? && StandardRefused(b, kind, rules.standard.value, prefix))
  }

  /** The standard rules with what is compiled from them. */
  lemma {:induction false} StandardExactly(b: Builder, target: Target, standard: RulesType, prefix: seq<Element>,
                                           v: ValueValidator)
    requires StandardRules(b, target, standard, prefix).Done?
    requires var s := StandardRules(b, target, standard, prefix).value;
             var predefined := Compile(b, CelExpressions(s.native.predefined, Some(s.native.bound)));
             && predefined.Done? && v.predefined == predefined.value
             && v.wrapper == s.wrapper && v.checks == Some(s.native.checks)
    ensures StandardIs(b, target.kind, standard, prefix, v)
  {
    FitsExactly(b.pool, target, standard);
    WrapperExactly(b, target, standard);
    EnumExactly(b.pool, target, standard);
    var native := StandardRules(b, target, standard, prefix).value.native;
    CompileExactly(b, Some(native.bound), native.predefined);
  }

  lemma {:induction false} StandardFails(b: Builder, target: Target, standard: RulesType, prefix: seq<Element>)
    ensures StandardRules(b, target, standard, prefix).Failed? ==> StandardRefused(b, target.kind, standard, prefix)
    ensures StandardRules(b, target, standard, prefix).Done? ==>
              var native := StandardRules(b, target, standard, prefix).value.native;
              (StandardRefused(b, target.kind, standard, prefix) <==> Refuses(b, Some(native.bound), native.predefined))
  {
    FitsExactly(b.pool, target, standard);
    if CaseFits(b.pool, target.kind, standard) {
      WrapperExactly(b, target, standard);
      EnumExactly(b.pool, target, standard);
    }
  }

  lemma {:induction false} ValueExactly(b: Builder, target: Target, rules: FieldRules, prefix: seq<Element>)
    ensures BuildValue(b, target, rules, prefix).Done? ==>
              !ValueRefused(b, target.kind, rules, prefix)
              && ValueIs(b, target.kind, rules, prefix, BuildValue(b, target, rules, prefix).value.0)
    ensures BuildValue(b, target, rules, prefix).Failed? ==> ValueRefused(b, target.kind, rules, prefix)
  {
    CustomExactly(b, rules.celExpression, rules.cel, true, prefix);
    if rules.standard.Some? {
      var standard := rules.standard.value;
      StandardFails(b, target, standard, prefix);
      var s := StandardRules(b, target, standard, prefix);
      if s.Done? {
        CompileExactly(b, Some(s.value.native.bound), s.value.native.predefined);
        if BuildValue(b, target, rules, prefix).Done? {
          StandardExactly(b, target, standard, prefix, BuildValue(b, target, rules, prefix).value.0);
        }
      }
    }
  }

  // ------------------------------------------------------------------ items and fields

  /** The rules of a container's items, keys or values, compiled; nothing if there is nothing to do for one. */
  ghost predicate ItemIs(b: Builder, kind: SingularKind, rules: Option<FieldRules>, prefix: seq<Element>,
                         item: Option<ItemValidator>)
  {
    match rules
    case None =>
      item == if !kind.MessageOf? then None
              else Some(ItemValidator(false, ValueValidator(None, None, None, None, Some(kind.message))))
    case Some(r) =>
      if r.ignore == Some(Always) then item.None?
      else
        && item.Some? && (item.value.ignoreEmpty <==> r.ignore == Some(IfZeroValue))
        && ValueIs(b, Singular(kind), r, prefix, item.value.value)
  }

  ghost predicate ItemIsRefused(b: Builder, kind: SingularKind, rules: Option<FieldRules>, prefix: seq<Element>) {
    rules.Some? && rules.value.ignore != Some(Always) && ValueRefused(b, Singular(kind), rules.value, prefix)
  }

  lemma {:induction false} ItemExactly(b: Builder, kind: SingularKind, name: string, rules: Option<FieldRules>,
                                       prefix: seq<Element>)
    ensures var built := BuildItem(b, ItemTarget(kind, name), rules, prefix);
            && (built.Done? ==> !ItemIsRefused(b, kind, rules, prefix) && ItemIs(b, kind, rules, prefix, built.value))
            && (built.Failed? ==> ItemIsRefused(b, kind, rules, prefix))
  {
    if rules.Some? && rules.value.ignore != Some(Always) {
      ValueExactly(b, ItemTarget(kind, name), rules.value, prefix);
    }
  }

  /** The numbers of `FieldDescriptorProto.Type`. */
  const SCALAR_TYPES: set<(Scalar, int)> := {
    (Double, 1), (Float, 2), (Int64, 3), (Uint64, 4), (Int32, 5), (Fixed64, 6), (Fixed32, 7), (Bool, 8), (String, 9),
    (Bytes, 12), (Uint32, 13), (Sfixed32, 15), (Sfixed64, 16), (Sint32, 17), (Sint64, 18)}

  predicate TypeIs(kind: SingularKind, delimited: bool, ty: int) {
    match kind
    case ScalarOf(s) => (s, ty) in SCALAR_TYPES
    case EnumOf(_) => ty == 14
    case MessageOf(_) => ty == if delimited then 10 else 11
  }

  /** How paths refer to a field: number, name and type, and for map entries the types of both sides. */
  predicate Names(e: Element, f: FieldDescriptor, entry: bool) {
    && e.number == Some(if f.number < 0x8000_0000 then f.number else 0x7FFF_FFFF)
    && e.name == Some(f.name) && e.fieldType.Some? && e.subscript.None?
    && match f.kind
       case Singular(kind) => TypeIs(kind, f.delimited, e.fieldType.value) && e.keyType.None? && e.valueType.None?
       case ListOf(kind) => TypeIs(kind, f.delimited, e.fieldType.value) && e.keyType.None? && e.valueType.None?
       case MapOf(key, value) =>
         && e.fieldType.value == 11
         && if !entry then e.keyType.None? && e.valueType.None?
            else
              && e.keyType.Some? && TypeIs(ScalarOf(key), false, e.keyType.value)
              && e.valueType.Some? && TypeIs(value, false, e.valueType.value)
  }

  lemma {:induction false} TypesExactly(kind: SingularKind)
    ensures TypeIs(kind, false, SingularType(kind))
  {
  }

  lemma {:induction false} NamesExactly(f: FieldDescriptor)
    ensures Names(PathElement(f), f, false) && Names(EntryElement(f), f, true)
  {
    match f.kind
    case Singular(kind) => TypesExactly(kind);
    case ListOf(kind) => TypesExactly(kind);
    case MapOf(key, value) =>
      TypesExactly(ScalarOf(key));
      TypesExactly(value);
  }

  /** A field of `FieldRules` or of its containers' rules, as an element of a rule path. */
  function RuleField(number: Codec.int32, name: string): Element {
    Element(Some(number), Some(name), Some(11), None, None, None)
  }

  function ItemRules(rules: FieldRules): Option<FieldRules> {
    match rules.standard
    case Some(Repeated(_, _, _, items)) => items
    case _ => None
  }

  function KeyRules(rules: FieldRules): Option<FieldRules> {
    match rules.standard
    case Some(Map(_, _, keys, _)) => keys
    case _ => None
  }

  function ValueRules(rules: FieldRules): Option<FieldRules> {
    match rules.standard
    case Some(Map(_, _, _, values)) => values
    case _ => None
  }

  ghost predicate ShapeIs(b: Builder, f: FieldDescriptor, rules: FieldRules, shape: FieldShape) {
    match f.kind
    case Singular(_) => shape.OneValue?
    case ListOf(kind) =>
      shape.Items?
      && ItemIs(b, kind, ItemRules(rules), [RuleField(18, "repeated"), RuleField(4, "items")], shape.items)
    case MapOf(key, value) =>
      && shape.Entries? && Names(shape.element, f, true)
      && ItemIs(b, ScalarOf(key), KeyRules(rules), [RuleField(19, "map"), RuleField(4, "keys")], shape.keys)
      && ItemIs(b, value, ValueRules(rules), [RuleField(19, "map"), RuleField(5, "values")], shape.values)
  }

  ghost predicate ShapeRefused(b: Builder, f: FieldDescriptor, rules: FieldRules) {
    match f.kind
    case Singular(_) => false
    case ListOf(kind) =>
      ItemIsRefused(b, kind, ItemRules(rules), [RuleField(18, "repeated"), RuleField(4, "items")])
    case MapOf(key, value) =>
      || ItemIsRefused(b, ScalarOf(key), KeyRules(rules), [RuleField(19, "map"), RuleField(4, "keys")])
      || ItemIsRefused(b, value, ValueRules(rules), [RuleField(19, "map"), RuleField(5, "values")])
  }

  lemma {:induction false} ListExactly(b: Builder, message: MessageDescriptor, f: FieldDescriptor, rules: FieldRules,
                                       remaining: Option<RulesType>)
    requires remaining == (if rules.standard.None? then None else Some(Remaining(rules.standard.value)))
    requires f.kind.ListOf?
    ensures var built := BuildShape(b, message, f, remaining);
            && (built.Done? ==> !ShapeRefused(b, f, rules) && ShapeIs(b, f, rules, built.value))
            && (built.Failed? ==> ShapeRefused(b, f, rules))
  {
    ItemExactly(b, f.kind.element, FieldTarget(message, f).name, ItemRules(rules), [REPEATED, REPEATED_ITEMS]);
  }

  lemma {:induction false} MapExactly(b: Builder, message: MessageDescriptor, f: FieldDescriptor, rules: FieldRules,
                                      remaining: Option<RulesType>)
    requires remaining == (if rules.standard.None? then None else Some(Remaining(rules.standard.value)))
    requires f.kind.MapOf?
    ensures var built := BuildShape(b, message, f, remaining);
            && (built.Done? ==> !ShapeRefused(b, f, rules) && ShapeIs(b, f, rules, built.value))
            && (built.Failed? ==> ShapeRefused(b, f, rules))
  {
    NamesExactly(f);
    ItemExactly(b, ScalarOf(f.kind.key), EntryName(message, f, "key"), KeyRules(rules), [MAP, MAP_KEYS]);
    ItemExactly(b, f.kind.value, EntryName(message, f, "value"), ValueRules(rules), [MAP, MAP_VALUES]);
  }

  lemma {:induction false} ShapeExactly(b: Builder, message: MessageDescriptor, f: FieldDescriptor, rules: FieldRules,
                                        remaining: Option<RulesType>)
    requires remaining == (if rules.standard.None? then None else Some(Remaining(rules.standard.value)))
    ensures var built := BuildShape(b, message, f, remaining);
            && (built.Done? ==> !ShapeRefused(b, f, rules) && ShapeIs(b, f, rules, built.value))
            && (built.Failed? ==> ShapeRefused(b, f, rules))
  {
    match f.kind
    case Singular(_) =>
    case ListOf(_) => ListExactly(b, message, f, rules, remaining);
    case MapOf(_, _) => MapExactly(b, message, f, rules, remaining);
  }

  // --------------------------------------------------------------------------- fields

  function Declared(f: FieldDescriptor): FieldRules {
    match f.rules case Some(rules) => rules case None => FieldRules([], [], None, None, None)
  }

  /** A field of which a oneof rule of the message names. */
  ghost predicate Member(message: MessageDescriptor, f: FieldDescriptor) {
    message.rules.Some? && exists r :: r in message.rules.value.oneofs && f.name in r.fields
  }

  /** A field is compiled when it has rules or holds messages, unless it is always ignored. */
  predicate Compiled(f: FieldDescriptor) {
    (f.rules.Some? || TypeHeld(f.kind).Some?) && Declared(f).ignore != Some(Always)
  }

  /** The compiled fields, as declared. */
  function CompiledFields(fields: seq<FieldDescriptor>): seq<FieldDescriptor> {
    if fields == [] then []
    else if Compiled(fields[0]) then [fields[0]] + CompiledFields(fields[1..])
    else CompiledFields(fields[1..])
  }

  /** An empty value is skipped: by the rules, as a member of a oneof rule without a say, or for lack of presence. */
  ghost predicate SkipsEmpty(message: MessageDescriptor, f: FieldDescriptor) {
    || Declared(f).ignore == Some(IfZeroValue)
    || (Declared(f).ignore.None? && Member(message, f))
    || (f.kind.Singular? && (f.presence.Explicit? || f.presence.LegacyRequired?))
  }

  ghost predicate FieldIs(b: Builder, message: MessageDescriptor, f: FieldDescriptor, v: FieldValidator) {
    && Described(b, f, v.field) && Names(v.element, f, false)
    && (v.required <==> Declared(f).required == Some(true))
    && (v.ignoreEmpty <==> SkipsEmpty(message, f))
    && ValueIs(b, f.kind, Declared(f), [], v.value)
    && ShapeIs(b, f, Declared(f), v.shape)
  }

  /** A field is an error when its own rules or those of its items, keys or values are. */
  ghost predicate FieldRefused(b: Builder, f: FieldDescriptor) {
    ValueRefused(b, f.kind, Declared(f), []) || ShapeRefused(b, f, Declared(f))
  }

  /** What `ignore` says is all that membership of a oneof rule changes. */
  lemma {:induction false} ValueApart(b: Builder, kind: Kind, rules: FieldRules, other: FieldRules,
                                      prefix: seq<Element>)
    requires other == rules.(ignore := other.ignore)
    ensures forall v :: ValueIs(b, kind, other, prefix, v) <==> ValueIs(b, kind, rules, prefix, v)
    ensures ValueRefused(b, kind, other, prefix) <==> ValueRefused(b, kind, rules, prefix)
  {
  }

  lemma {:induction false} EffectiveExactly(message: MessageDescriptor, f: FieldDescriptor, members: set<string>)
    requires f.name in members <==> Member(message, f)
    ensures var rules := EffectiveRules(f, members);
            && rules == Declared(f).(ignore := rules.ignore)
            && (rules.ignore == Some(Always) <==> Declared(f).ignore == Some(Always))
            && (FieldTarget(message, f).IgnoreEmpty(rules.ignore) <==> SkipsEmpty(message, f))
            && (rules.required.GetOr(false) <==> Declared(f).required == Some(true))
  {
  }

  lemma {:induction false} OwnExactly(b: Builder, message: MessageDescriptor, f: FieldDescriptor, rules: FieldRules)
    requires rules == Declared(f).(ignore := rules.ignore)
    ensures var built := BuildValue(b, FieldTarget(message, f), rules, []);
            && (built.Done? ==>
                  && !ValueRefused(b, f.kind, Declared(f), []) && ValueIs(b, f.kind, Declared(f), [], built.value.0)
                  && built.value.1 == if Declared(f).standard.None? then None
                                      else Some(Remaining(Declared(f).standard.value)))
            && (built.Failed? ==> ValueRefused(b, f.kind, Declared(f), []))
  {
    ValueExactly(b, FieldTarget(message, f), rules, []);
    ValueApart(b, f.kind, Declared(f), rules, []);
    if BuildValue(b, FieldTarget(message, f), rules, []).Done? {
      ValueRemains(b, FieldTarget(message, f), rules, []);
    }
  }

  lemma {:induction false} DescribedField(b: Builder, f: FieldDescriptor)
    ensures Names(PathElement(f), f, false) && !b.Describe(f).Failed?
    ensures b.Describe(f).Done? ==> Described(b, f, b.Describe(f).value)
  {
    NamesExactly(f);
    if b.Describe(f).Done? {
      DescribeExactly(b, f);
    }
  }

  lemma {:induction false} FieldExactly(b: Builder, message: MessageDescriptor, f: FieldDescriptor,
                                        members: set<string>)
    requires (f.name in members <==> Member(message, f)) && Declared(f).ignore != Some(Always)
    ensures var built := BuildField(b, message, f, EffectiveRules(f, members));
            && (built.Done? ==>
                  && !FieldRefused(b, f)
                  && built.value.Some? && FieldIs(b, message, f, built.value.value))
            && (built.Failed? ==> FieldRefused(b, f))
  {
    var rules := EffectiveRules(f, members);
    EffectiveExactly(message, f, members);
    OwnExactly(b, message, f, rules);
    DescribedField(b, f);
    var value := BuildValue(b, FieldTarget(message, f), rules, []);
    if value.Done? {
      ShapeExactly(b, message, f, Declared(f), value.value.1);
    }
  }

  /** The entries are those of the compiled fields, one each, in order: compiled, or an error where one is due. */
  ghost predicate FieldsAre(b: Builder, message: MessageDescriptor, fields: seq<FieldDescriptor>,
                            entries: seq<Result<FieldValidator, string>>)
  {
    && |entries| == |fields|
    && forall i :: 0 <= i < |fields| ==>
         match entries[i]
         case Ok(v) => !FieldRefused(b, fields[i]) && FieldIs(b, message, fields[i], v)
         case Err(_) => FieldRefused(b, fields[i])
  }

  lemma {:induction false} FieldsExactly(b: Builder, message: MessageDescriptor, fields: seq<FieldDescriptor>,
                                         members: set<string>)
    requires forall f :: f in fields ==> (f.name in members <==> Member(message, f))
    requires BuildFields(b, message, fields, members).Done?
    ensures FieldsAre(b, message, CompiledFields(fields), BuildFields(b, message, fields, members).value)
  {
    if fields != [] {
      FieldsExactly(b, message, fields[1..], members);
      OneField(b, message, fields[0], members);
      var entries, rest := BuildFields(b, message, fields, members).value,
                           BuildFields(b, message, fields[1..], members).value;
      if Compiled(fields[0]) {
        FieldsCons(b, message, fields[0], CompiledFields(fields[1..]), entries[0], rest);
        assert entries == [entries[0]] + rest;
      } else {
        assert entries == rest;
      }
    }
  }

  /** Whether a field has an entry, and which. */
  lemma {:induction false} OneField(b: Builder, message: MessageDescriptor, f: FieldDescriptor, members: set<string>)
    requires f.name in members <==> Member(message, f)
    ensures var built := BuildField(b, message, f, EffectiveRules(f, members));
            && (Compiled(f) ==>
                  && (f.rules.Some? || MessageType(f).Some?)
                  && (built.Done? ==>
                        !FieldRefused(b, f) && built.value.Some? && FieldIs(b, message, f, built.value.value))
                  && (built.Failed? ==> FieldRefused(b, f)))
            && (!Compiled(f) ==> (f.rules.None? && MessageType(f).None?) || built == Done(None))
  {
    assert MessageType(f) == TypeHeld(f.kind);
    if Declared(f).ignore != Some(Always) {
      FieldExactly(b, message, f, members);
    } else {
      EffectiveExactly(message, f, members);
    }
  }

  lemma {:induction false} FieldsCons(b: Builder, message: MessageDescriptor, f: FieldDescriptor,
                                      fields: seq<FieldDescriptor>, entry: Result<FieldValidator, string>,
                                      entries: seq<Result<FieldValidator, string>>)
    requires FieldsAre(b, message, fields, entries)
    requires match entry
             case Ok(v) => !FieldRefused(b, f) && FieldIs(b, message, f, v)
             case Err(_) => FieldRefused(b, f)
    ensures FieldsAre(b, message, [f] + fields, [entry] + entries)
  {
    var all, built := [f] + fields, [entry] + entries;
    forall i | 0 <= i < |all|
      ensures match built[i]
              case Ok(v) => !FieldRefused(b, all[i]) && FieldIs(b, message, all[i], v)
              case Err(_) => FieldRefused(b, all[i])
    {
      if i > 0 {
        assert all[i] == fields[i - 1] && built[i] == entries[i - 1];
      }
    }
  }

  // ------------------------------------------------------------------------- messages

  /** Fields described, in order. */
  ghost predicate AllDescribed(b: Builder, fs: seq<FieldDescriptor>, ds: seq<Field>) {
    |ds| == |fs| && forall i :: 0 <= i < |fs| ==> Described(b, fs[i], ds[i])
  }

  /** The oneofs that have to be set, as declared. */
  function RequiredOf(oneofs: seq<OneofDescriptor>): seq<OneofDescriptor> {
    if oneofs == [] then []
    else if oneofs[0].required then [oneofs[0]] + RequiredOf(oneofs[1..])
    else RequiredOf(oneofs[1..])
  }

  /** The fields at those positions; a position that no field has is passed over. */
  function At(fields: seq<FieldDescriptor>, positions: seq<nat>): seq<FieldDescriptor> {
    if positions == [] then []
    else if positions[0] < |fields| then [fields[positions[0]]] + At(fields, positions[1..])
    else At(fields, positions[1..])
  }

  ghost predicate OneofsAre(b: Builder, message: MessageDescriptor, oneofs: seq<OneofDescriptor>,
                            built: seq<OneofRequired>) {
    && |built| == |oneofs|
    && forall i :: 0 <= i < |oneofs| ==>
         && built[i].element == Element(None, Some(oneofs[i].name), None, None, None, None)
         && AllDescribed(b, At(message.fields, oneofs[i].fieldIndices), built[i].members)
  }

  lemma {:induction false} AtExactly(message: MessageDescriptor, positions: seq<nat>)
    ensures Members(message, positions) == At(message.fields, positions)
  {
    if positions != [] {
      AtExactly(message, positions[1..]);
    }
  }

  lemma {:induction false} AllDescribedExactly(b: Builder, fs: seq<FieldDescriptor>)
    requires b.DescribeAll(fs).Done?
    ensures AllDescribed(b, fs, b.DescribeAll(fs).value)
  {
    if fs != [] {
      DescribeExactly(b, fs[0]);
      AllDescribedExactly(b, fs[1..]);
    }
  }

  lemma {:induction false} RequiredExactly(b: Builder, message: MessageDescriptor, oneofs: seq<OneofDescriptor>)
    requires RequiredOneofs(b, message, oneofs).Done?
    ensures OneofsAre(b, message, RequiredOf(oneofs), RequiredOneofs(b, message, oneofs).value)
  {
    if oneofs != [] {
      RequiredExactly(b, message, oneofs[1..]);
      if oneofs[0].required {
        AtExactly(message, oneofs[0].fieldIndices);
        AllDescribedExactly(b, At(message.fields, oneofs[0].fieldIndices));
      }
    }
  }

  /** A oneof rule compiled: its fields described, by name and in order. */
  ghost predicate OneofRuleIs(b: Builder, message: MessageDescriptor, rule: MessageOneofRule, oneof: MessageOneof) {
    && |oneof.fields| == |rule.fields|
    && (forall i :: 0 <= i < |rule.fields| ==>
          exists f :: f in message.fields && f.name == rule.fields[i] && Described(b, f, oneof.fields[i]))
    && (oneof.required <==> rule.required == Some(true))
  }

  lemma {:induction false} MembersDescribed(b: Builder, message: MessageDescriptor, names: seq<string>,
                                            seen: set<string>)
    requires OneofMembers(b, message, names, seen).Done?
    ensures var ds := OneofMembers(b, message, names, seen).value;
            |ds| == |names| && forall i :: 0 <= i < |names| ==>
              exists f :: f in message.fields && f.name == names[i] && Described(b, f, ds[i])
  {
    if names != [] {
      DescribeExactly(b, FieldByName(message.fields, names[0]).value);
      MembersDescribed(b, message, names[1..], seen + {names[0]});
    }
  }

  lemma {:induction false} OneofRulesExactly(b: Builder, message: MessageDescriptor, rules: seq<MessageOneofRule>)
    requires MessageOneofs(b, message, rules).Done?
    ensures var oneofs := MessageOneofs(b, message, rules).value.oneofs;
            |oneofs| == |rules| && forall i :: 0 <= i < |rules| ==> OneofRuleIs(b, message, rules[i], oneofs[i])
  {
    if rules != [] {
      OneofsCons(b, message, rules);
      MembersDescribed(b, message, rules[0].fields, {});
      OneofRulesExactly(b, message, rules[1..]);
    }
  }

  /** The fields that count as members are those the rules name. */
  lemma {:induction false} MembersExactly(b: Builder, message: MessageDescriptor)
    requires MessageOneofs(b, message, OneofRulesOf(message)).Done?
    ensures forall f: FieldDescriptor ::
              f.name in MessageOneofs(b, message, OneofRulesOf(message)).value.members <==> Member(message, f)
  {
    OneofsMembers(b, message, OneofRulesOf(message));
    forall f: FieldDescriptor
      ensures Member(message, f) <==>
              exists i :: 0 <= i < |OneofRulesOf(message)| && f.name in OneofRulesOf(message)[i].fields
    {
      if Member(message, f) {
        var r :| r in message.rules.value.oneofs && f.name in r.fields;
        var i :| 0 <= i < |OneofRulesOf(message)| && OneofRulesOf(message)[i] == r;
      }
    }
  }

  function OneofRulesOf(message: MessageDescriptor): seq<MessageOneofRule> {
    match message.rules case Some(rules) => rules.oneofs case None => []
  }

  function CelOf(message: MessageDescriptor): (seq<string>, seq<Rule>) {
    match message.rules case Some(rules) => (rules.celExpression, rules.cel) case None => ([], [])
  }

  /** A message compiled. */
  ghost predicate MessageIs(b: Builder, idx: MessageIndex, v: MessageValidator)
    requires idx < |b.pool|
  {
    var message := b.pool[idx];
    && idx in b.types && v.messageType == b.types[idx]
    && CustomIs(b, CelOf(message).0, CelOf(message).1, None, v.cel)
    && |v.messageOneofs| == |OneofRulesOf(message)|
    && (forall i :: 0 <= i < |v.messageOneofs| ==>
          OneofRuleIs(b, message, OneofRulesOf(message)[i], v.messageOneofs[i]))
    && OneofsAre(b, message, RequiredOf(message.oneofs), v.oneofs)
    && FieldsAre(b, message, CompiledFields(message.fields), v.fields)
  }

  /** A message is an error when a oneof rule is bad or its own CEL rules do not compile. */
  ghost predicate MessageRefused(b: Builder, idx: MessageIndex)
    requires idx < |b.pool|
  {
    var message := b.pool[idx];
    || (exists r :: r in OneofRulesOf(message) && BadOneof(message, r))
    || CustomRefused(b, CelOf(message).0, CelOf(message).1, None)
  }

  lemma {:induction false} BuildFieldsCompletes(b: Builder, message: MessageDescriptor, fields: seq<FieldDescriptor>,
                                                members: set<string>)
    ensures !BuildFields(b, message, fields, members).Failed?
  {
    if fields != [] {
      BuildFieldsCompletes(b, message, fields[1..], members);
    }
  }

  lemma {:induction false} RequiredCompletes(b: Builder, message: MessageDescriptor, oneofs: seq<OneofDescriptor>)
    ensures !RequiredOneofs(b, message, oneofs).Failed?
  {
    if oneofs != [] {
      RequiredCompletes(b, message, oneofs[1..]);
      DescribeCompletes(b, Members(message, oneofs[0].fieldIndices));
    }
  }

  lemma {:induction false} DescribeCompletes(b: Builder, fs: seq<FieldDescriptor>)
    ensures !b.DescribeAll(fs).Failed?
  {
    if fs != [] {
      DescribeCompletes(b, fs[1..]);
    }
  }

  /** The build of a message that does not panic gives just what its descriptor and options say, or the error due. */
  lemma {:induction false} MessageExactly(b: Builder, idx: MessageIndex)
    requires idx < |b.pool| && !BuildMessage(b, idx).Panicked?
    ensures match BuildMessage(b, idx)
            case Done(v) => !MessageRefused(b, idx) && MessageIs(b, idx, v)
            case Failed(_) => MessageRefused(b, idx)
  {
    var message := b.pool[idx];
    var rules := message.rules.GetOr(MessageRules([], [], []));
    assert rules.oneofs == OneofRulesOf(message) && (rules.celExpression, rules.cel) == CelOf(message);
    CustomExactly(b, rules.celExpression, rules.cel, false, []);
    OneofsFail(b, message, rules.oneofs);
    var level := MessageOneofs(b, message, rules.oneofs);
    if level.Done? {
      OneofRulesExactly(b, message, rules.oneofs);
      MembersExactly(b, message);
      BuildFieldsCompletes(b, message, message.fields, level.value.members);
      RequiredCompletes(b, message, message.oneofs);
      if BuildMessage(b, idx).Done? {
        FieldsExactly(b, message, message.fields, level.value.members);
        RequiredExactly(b, message, message.oneofs);
      }
    }
  }

  // --------------------------------------------------------------------- nested types

  /** The rules of a container's messages say to always ignore them. */
  predicate Unvisited(f: FieldDescriptor) {
    match f.kind
    case Singular(_) => false
    case ListOf(_) => ItemRules(Declared(f)).Some? && ItemRules(Declared(f)).value.ignore == Some(Always)
    case MapOf(_, _) => ValueRules(Declared(f)).Some? && ValueRules(Declared(f)).value.ignore == Some(Always)
  }

  /** A compiled field leads to the type that its descriptor holds, unless its items are never visited. */
  lemma {:induction false} NestedExactly(b: Builder, message: MessageDescriptor, f: FieldDescriptor,
                                         v: FieldValidator)
    requires FieldIs(b, message, f, v)
    ensures NestedType(v) == if Unvisited(f) then None else TypeHeld(f.kind)
  {
  }

  /** Names are joined by commas, in order. */
  lemma {:induction false} JoinedExactly(names: seq<string>, last: string)
    ensures Join([]) == "" && Join([last]) == last
    ensures names != [] ==> Join(names + [last]) == Join(names) + ", " + last
  {
    if |names| > 1 {
      JoinedExactly(names[1..], last);
      assert (names + [last])[1..] == names[1..] + [last];
    }
  }
}
