/**
 The build of a message's validator, step for step. CEL compilation
 and the native checks are parameters: deterministic functions of what they are
 given. The panic of `resolved` is an outcome, so that it can be ruled out.
 */
module RuleBuild {
  import opened Wrappers
  import opened Descriptors
  import opened Elements

  /** How the runtime reads messages of one type. */
  type TypeInfo(==, !new, 0)
  /** A compiled CEL program. */
  type Program(==, !new, 0)
  /** The native checks of one rules message. */
  type Checks(==, !new, 0)

  // -------------------------------------------------------------- the outcomes

  datatype Step<+T> = Done(value: T) | Failed(error: string) | Panicked(missing: MessageIndex) {
    predicate IsFailure() {
      !Done?
    }

    function PropagateFailure<U>(): Step<U>
      requires !Done?
    {
      if Failed? then Failed(error) else Panicked(missing)
    }

    function Extract(): T
      requires Done?
    {
      value
    }

    /** Prepends to an error's text. */
    function Explained(prefix: string): Step<T> {
      if Failed? then Failed(prefix + error) else this
    }
  }

  // --------------------------------------------------------- compiled validators

  datatype CelRule = CelRule(
    id: string,
    message: string,
    expression: string,
    ruleFieldNumber: int,
    rulePath: seq<Element>)

  datatype Bound = Bound(fullName: string, bytes: seq<int>)

  /** The CEL rules of one value before compilation. */
  datatype CelExpressions = CelExpressions(rules: seq<CelRule>, bound: Option<Bound>)

  datatype CelPrograms = CelPrograms(program: Program, rules: seq<CelRule>)

  /** A field, as the validator describes it to the runtime. */
  datatype Field = Field(number: nat, name: string, kind: Kind, messageType: Option<TypeInfo>, hasPresence: bool)

  datatype MessageOneof = MessageOneof(fields: seq<Field>, names: string, required: bool)

  datatype OneofRequired = OneofRequired(element: Element, members: seq<Field>)

  datatype ValueValidator = ValueValidator(
    custom: Option<CelPrograms>,
    checks: Option<Checks>,
    wrapper: Option<Field>,
    predefined: Option<CelPrograms>,
    nested: Option<MessageIndex>)

  datatype ItemValidator = ItemValidator(ignoreEmpty: bool, value: ValueValidator)

  datatype FieldShape =
    | OneValue
    | Items(items: Option<ItemValidator>)
    | Entries(element: Element, keys: Option<ItemValidator>, values: Option<ItemValidator>)

  datatype FieldValidator = FieldValidator(
    field: Field,
    element: Element,
    required: bool,
    ignoreEmpty: bool,
    value: ValueValidator,
    shape: FieldShape)

  datatype MessageValidator = MessageValidator(
    messageType: TypeInfo,
    cel: Option<CelPrograms>,
    messageOneofs: seq<MessageOneof>,
    oneofs: seq<OneofRequired>,
    fields: seq<Result<FieldValidator, string>>)

  // ---------------------------------------------------------------- the builder

  datatype Native = Native(checks: Checks, predefined: seq<CelRule>, bound: Bound)

  /** One CEL expression, with the rules field bound while it runs. */
  datatype Expression = Expression(expression: string, ruleFieldNumber: int)

  /** What a builder is given. */
  datatype Builder = Builder(
    pool: Pool,
    compile: (Option<Bound>, seq<Expression>) -> Result<Program, string>,
    native: (RulesType, seq<Element>, Option<nat>) -> Result<Native, string>,
    types: map<MessageIndex, TypeInfo>)
  {
    /** Nothing is looked up here: what was not resolved beforehand is a panic. */
    function Resolved(idx: MessageIndex): Step<TypeInfo> {
      if idx in types then Done(types[idx]) else Panicked(idx)
    }

    /** Fails only on the type that the field refers to. */
    function Describe(field: FieldDescriptor): Step<Field> {
      var hasPresence := field.kind.Singular? && field.presence != Implicit;
      match MessageType(field)
      case None => Done(Field(field.number, field.name, field.kind, None, hasPresence))
      case Some(idx) =>
        var ty :- Resolved(idx);
        Done(Field(field.number, field.name, field.kind, Some(ty), hasPresence))
    }

    function DescribeAll(fields: seq<FieldDescriptor>): Step<seq<Field>> {
      if fields == [] then Done([]) else
      var first :- Describe(fields[0]);
      var rest :- DescribeAll(fields[1..]);
      Done([first] + rest)
    }
  }

  // --------------------------------------------------------------------- targets

  /** What is validated: a field as a whole, an item, a key or a map value. */
  datatype Target = Target(kind: Kind, presence: Presence, name: string) {
    function Value(): SingularKind {
      match kind
      case Singular(k) => k
      case ListOf(k) => k
      case MapOf(_, v) => v
    }

    /** What there is to descend into; items are descended into through their own targets. */
    function Nested(): Option<MessageIndex> {
      match kind
      case Singular(MessageOf(m)) => Some(m)
      case _ => None
    }

    predicate IgnoreEmpty(ignore: Option<Ignore>) {
      ignore == Some(IfZeroValue) || (kind.Singular? && presence != Implicit)
    }
  }

  function Upper(c: char): char {
    if 'a' <= c <= 'z' then c - 'a' + 'A' else c
  }

  /** How protoc names the entry type of a map field. */
  function Camel(name: string, upper: bool): string {
    if name == [] then "Entry"
    else if name[0] == '_' then Camel(name[1..], true)
    else [if upper then Upper(name[0]) else name[0]] + Camel(name[1..], false)
  }

  function FieldTarget(message: MessageDescriptor, field: FieldDescriptor): Target {
    Target(field.kind, field.presence, message.fullName + "." + field.name)
  }

  function EntryName(message: MessageDescriptor, field: FieldDescriptor, part: string): string {
    message.fullName + "." + Camel(field.name, true) + "." + part
  }

  /** Items, keys and values are validated as singular fields without presence. */
  function ItemTarget(kind: SingularKind, name: string): Target {
    Target(Singular(kind), Implicit, name)
  }

  // -------------------------------------------------------------- standard rules

  const ANY := "google.protobuf.Any"
  const DURATION := "google.protobuf.Duration"
  const FIELD_MASK := "google.protobuf.FieldMask"
  const TIMESTAMP := "google.protobuf.Timestamp"

  /** A wrapper is recognised by its name alone, and takes the rules of its scalar. */
  function WrapperRules(typeName: string): Option<string> {
    if typeName == "google.protobuf.BoolValue" then Some("bool")
    else if typeName == "google.protobuf.BytesValue" then Some("bytes")
    else if typeName == "google.protobuf.DoubleValue" then Some("double")
    else if typeName == "google.protobuf.FloatValue" then Some("float")
    else if typeName == "google.protobuf.Int32Value" then Some("int32")
    else if typeName == "google.protobuf.Int64Value" then Some("int64")
    else if typeName == "google.protobuf.StringValue" then Some("string")
    else if typeName == "google.protobuf.UInt32Value" then Some("uint32")
    else if typeName == "google.protobuf.UInt64Value" then Some("uint64")
    else None
  }

  function WellKnownRules(typeName: string): Option<string> {
    if typeName == ANY then Some("any")
    else if typeName == DURATION then Some("duration")
    else if typeName == FIELD_MASK then Some("field_mask")
    else if typeName == TIMESTAMP then Some("timestamp")
    else WrapperRules(typeName)
  }

  function ScalarName(s: Scalar): string {
    match s
    case Double => "double"
    case Float => "float"
    case Int64 => "int64"
    case Uint64 => "uint64"
    case Int32 => "int32"
    case Fixed64 => "fixed64"
    case Fixed32 => "fixed32"
    case Bool => "bool"
    case String => "string"
    case Bytes => "bytes"
    case Uint32 => "uint32"
    case Sfixed32 => "sfixed32"
    case Sfixed64 => "sfixed64"
    case Sint32 => "sint32"
    case Sint64 => "sint64"
  }

  /** Which case of the `type` oneof is set. */
  function RulesName(rules: RulesType): string {
    match rules
    case Repeated(_, _, _, _) => "repeated"
    case Map(_, _, _, _) => "map"
    case Leaf(name, _) => name
  }

  /** A scalar type's rules, which also apply to its wrapper message. */
  predicate IsScalarRules(rules: RulesType) {
    rules.Leaf? && rules.name != "any" && rules.name != "duration" && rules.name != "field_mask"
    && rules.name != "timestamp"
  }

  function FullName(pool: Pool, idx: MessageIndex): string {
    if idx < |pool| then pool[idx].fullName else ""
  }

  /** `None` also for an index outside the pool. */
  function MessageOfTarget(pool: Pool, target: Target): Option<MessageDescriptor> {
    match target.Value()
    case MessageOf(idx) => if idx < |pool| then Some(pool[idx]) else None
    case _ => None
  }

  /** The one case of the `type` oneof that is allowed here; a message of any other type allows none. */
  function ExpectedRules(pool: Pool, target: Target): Option<string> {
    match target.kind
    case ListOf(_) => Some("repeated")
    case MapOf(_, _) => Some("map")
    case Singular(MessageOf(idx)) => WellKnownRules(FullName(pool, idx))
    case Singular(EnumOf(_)) => Some("enum")
    case Singular(ScalarOf(s)) => Some(ScalarName(s))
  }

  /** What the native checks leave of the rules: for a container, its items'. */
  function Remaining(rules: RulesType): RulesType {
    match rules
    case Repeated(_, _, _, items) => Repeated(None, None, None, items)
    case Map(_, _, keys, values) => Map(None, None, keys, values)
    case Leaf(name, _) => Leaf(name, [])
  }

  /** The wrapper's `value` field that the rules read instead, if any. */
  function WrapperField(b: Builder, target: Target, standard: RulesType): Step<Option<Field>> {
    var message := MessageOfTarget(b.pool, target);
    if IsScalarRules(standard) then
      match message
      case None => Done(None)
      case Some(m) =>
        match FieldByNumber(m.fields, 1)
        case None => Done(None)
        case Some(f) =>
          var field :- b.Describe(f);
          Done(Some(field))
    else if standard.Repeated? && standard.unique == Some(true)
            && target.kind.ListOf? && target.kind.element.MessageOf? then
      // unique() compares scalars, so only wrapper elements can be compared
      if message.Some? && WrapperRules(message.value.fullName).Some?
         && FieldByNumber(message.value.fields, 1).Some? then
        var field :- b.Describe(FieldByNumber(message.value.fields, 1).value);
        Done(Some(field))
      else Failed("repeated.unique is not supported for message items")
    else Done(None)
  }

  datatype Standard = Standard(wrapper: Option<Field>, native: Native, remaining: RulesType)

  function StandardRules(b: Builder, target: Target, standard: RulesType, prefix: seq<Element>): Step<Standard> {
    var got := RulesName(standard);
    match ExpectedRules(b.pool, target)
    case None =>
      Failed("mismatched message rules, \"buf.validate.FieldRules." + got
             + "\" is not a valid rule for field \"" + target.name + "\"")
    case Some(expected) =>
      if expected != got then
        Failed("expected rule \"buf.validate.FieldRules." + expected
               + "\", got \"buf.validate.FieldRules." + got + "\" on field \"" + target.name + "\"")
      else
        var wrapper :- WrapperField(b, target, standard);
        var enum := if IsScalarRules(standard) && target.kind.Singular? && target.kind.kind.EnumOf?
                    then Some(target.kind.kind.index) else None;
        match b.native(standard, prefix, enum)
        case Err(error) => Failed(error)
        case Ok(native) => Done(Standard(wrapper, native, Remaining(standard)))
  }

  // ------------------------------------------------------------------- CEL rules

  /** The path of entry `index` of a repeated rules field. */
  function RulePath(prefix: seq<Element>, element: Element, index: nat): seq<Element> {
    prefix + [Indexed(element, index)]
  }

  /** The custom rules: bare expressions first, each its own id. */
  function CustomRules(celExpression: seq<string>, cel: seq<Rule>, pathed: bool, prefix: seq<Element>): CelExpressions {
    CelExpressions(
      seq(|celExpression|, i requires 0 <= i < |celExpression| =>
        CelRule(celExpression[i], "", celExpression[i], 0, if pathed then RulePath(prefix, CEL_EXPRESSION, i) else []))
      + seq(|cel|, i requires 0 <= i < |cel| =>
        CelRule(cel[i].id.GetOr(""), cel[i].message.GetOr(""), cel[i].expression.GetOr(""), 0,
                if pathed then RulePath(prefix, CEL, i) else [])),
      None)
  }

  function Sources(rules: seq<CelRule>): seq<Expression> {
    seq(|rules|, i requires 0 <= i < |rules| => Expression(rules[i].expression, rules[i].ruleFieldNumber))
  }

  /** The first rule that does not compile on its own. */
  function Culprit(b: Builder, bound: Option<Bound>, rules: seq<CelRule>): Option<string> {
    if rules == [] then None else
    match b.compile(bound, Sources(rules[..1]))
    case Err(error) => Some("failed to compile expression " + rules[0].id + ": " + error)
    case Ok(_) => Culprit(b, bound, rules[1..])
  }

  function Compile(b: Builder, expressions: CelExpressions): Step<Option<CelPrograms>> {
    if expressions.rules == [] then Done(None) else
    match b.compile(expressions.bound, Sources(expressions.rules))
    case Ok(program) => Done(Some(CelPrograms(program, expressions.rules)))
    case Err(error) => Failed(Culprit(b, expressions.bound, expressions.rules).GetOr(error))
  }

  // ---------------------------------------------------------------------- values

  /** Custom rules first, then standard ones; a container gets the rules of its items back. */
  function BuildValue(b: Builder, target: Target, rules: FieldRules, prefix: seq<Element>)
    : Step<(ValueValidator, Option<RulesType>)>
  {
    var custom :- Compile(b, CustomRules(rules.celExpression, rules.cel, true, prefix));
    match rules.standard
    case None => Done((ValueValidator(custom, None, None, None, target.Nested()), None))
    case Some(rulesType) =>
      var standard :- StandardRules(b, target, rulesType, prefix);
      var predefined :- Compile(b, CelExpressions(standard.native.predefined, Some(standard.native.bound)));
      Done((ValueValidator(custom, Some(standard.native.checks), standard.wrapper, predefined, target.Nested()),
            Some(standard.remaining)))
  }

  /** No validator when the rules are always ignored, or when there is nothing to check. */
  function BuildItem(b: Builder, target: Target, rules: Option<FieldRules>, prefix: seq<Element>)
    : Step<Option<ItemValidator>>
  {
    match rules
    case None =>
      Done(match target.Nested()
           case None => None
           case Some(nested) => Some(ItemValidator(false, ValueValidator(None, None, None, None, Some(nested)))))
    case Some(r) =>
      if r.ignore == Some(Always) then Done(None) else
      var (value, _) :- BuildValue(b, target, r, prefix);
      Done(Some(ItemValidator(target.IgnoreEmpty(r.ignore), value)))
  }

  function BuildShape(b: Builder, message: MessageDescriptor, field: FieldDescriptor, remaining: Option<RulesType>)
    : Step<FieldShape>
  {
    var name := FieldTarget(message, field).name;
    match field.kind
    case Singular(_) => Done(OneValue)
    case ListOf(element) =>
      var rules := if remaining.Some? && remaining.value.Repeated? then remaining.value.items else None;
      var items :- BuildItem(b, ItemTarget(element, name), rules, [REPEATED, REPEATED_ITEMS])
                   .Explained("failed to compile items rules for repeated " + name + ": ");
      Done(Items(items))
    case MapOf(key, value) =>
      var map' := remaining.Some? && remaining.value.Map?;
      var keys :- BuildItem(b, ItemTarget(ScalarOf(key), EntryName(message, field, "key")),
                            if map' then remaining.value.keys else None, [MAP, MAP_KEYS])
                  .Explained("failed to compile key rules for map " + name + ": ");
      var values :- BuildItem(b, ItemTarget(value, EntryName(message, field, "value")),
                              if map' then remaining.value.values else None, [MAP, MAP_VALUES])
                    .Explained("failed to compile value rules for map " + name + ": ");
      Done(Entries(EntryElement(field), keys, values))
  }

  /** Nothing at all for rules that are ignored; otherwise value, items and description, in that order. */
  function BuildField(b: Builder, message: MessageDescriptor, field: FieldDescriptor, rules: FieldRules)
    : Step<Option<FieldValidator>>
  {
    if rules.ignore == Some(Always) then Done(None) else
    var target := FieldTarget(message, field);
    var (value, remaining) :- BuildValue(b, target, rules, []);
    var shape :- BuildShape(b, message, field, remaining);
    var described :- b.Describe(field);
    Done(Some(FieldValidator(described, PathElement(field), rules.required.GetOr(false),
                             target.IgnoreEmpty(rules.ignore), value, shape)))
  }

  // -------------------------------------------------------------------- messages

  /** The compiled oneof rules of a message; `members` are all the names in them. */
  datatype MessageLevel = MessageLevel(oneofs: seq<MessageOneof>, members: set<string>)

  function Join(names: seq<string>): string {
    if names == [] then ""
    else if |names| == 1 then names[0]
    else names[0] + ", " + Join(names[1..])
  }

  /** The members one oneof rule names, after `seen`. */
  function OneofMembers(b: Builder, message: MessageDescriptor, names: seq<string>,
                        seen: set<string>): Step<seq<Field>> {
    if names == [] then Done([])
    else if names[0] in seen then
      Failed("duplicate " + names[0] + " in oneof rule for the message " + message.fullName)
    else
      match FieldByName(message.fields, names[0])
      case None => Failed("field " + names[0] + " not found in message " + message.fullName)
      case Some(field) =>
        var first :- b.Describe(field);
        var rest :- OneofMembers(b, message, names[1..], seen + {names[0]});
        Done([first] + rest)
  }

  function MessageOneofs(b: Builder, message: MessageDescriptor, rules: seq<MessageOneofRule>): Step<MessageLevel> {
    if rules == [] then Done(MessageLevel([], {})) else
    var (oneof, names) :- OneOneof(b, message, rules[0]);
    After(MessageLevel([oneof], names), MessageOneofs(b, message, rules[1..]))
  }

  function OneOneof(b: Builder, message: MessageDescriptor, rule: MessageOneofRule): Step<(MessageOneof, set<string>)> {
    if rule.fields == [] then
      Failed("at least one field must be specified in oneof rule for the message " + message.fullName)
    else
      var fields :- OneofMembers(b, message, rule.fields, {});
      Done((MessageOneof(fields, Join(rule.fields), rule.required.GetOr(false)), set n | n in rule.fields))
  }

  /** What is done, followed by the outcome of the rest. */
  function After(done: MessageLevel, rest: Step<MessageLevel>): Step<MessageLevel> {
    match rest
    case Done(level) => Done(MessageLevel(done.oneofs + level.oneofs, done.members + level.members))
    case failure => failure
  }

  lemma {:induction false} AfterOne(done: MessageLevel, oneof: MessageOneof, names: set<string>,
                                    rest: Step<MessageLevel>)
    ensures After(MessageLevel([], {}), rest) == rest
    ensures After(done, After(MessageLevel([oneof], names), rest))
         == After(MessageLevel(done.oneofs + [oneof], done.members + names), rest)
  {
    if rest.Done? {
      assert [] + rest.value.oneofs == rest.value.oneofs && {} + rest.value.members == rest.value.members;
      assert done.oneofs + ([oneof] + rest.value.oneofs) == done.oneofs + [oneof] + rest.value.oneofs;
      assert done.members + (names + rest.value.members) == done.members + names + rest.value.members;
    }
  }

  /** The loops of `message_oneofs`: the first bad rule, in order, is the error. */
  method CollectOneofs(b: Builder, message: MessageDescriptor, rules: seq<MessageOneofRule>)
    returns (r: Step<MessageLevel>)
    ensures r == MessageOneofs(b, message, rules)
  {
    var level := MessageLevel([], {});
    var i := 0;
    assert rules[0..] == rules;
    assert MessageOneofs(b, message, rules) == After(level, MessageOneofs(b, message, rules)) by {
      AfterOne(level, MessageOneof([], "", false), {}, MessageOneofs(b, message, rules));
    }
    while i < |rules|
      invariant 0 <= i <= |rules|
      invariant MessageOneofs(b, message, rules) == After(level, MessageOneofs(b, message, rules[i..]))
    {
      var rule := rules[i];
      assert rules[i..][1..] == rules[i + 1..];
      if rule.fields == [] {
        return Failed("at least one field must be specified in oneof rule for the message " + message.fullName);
      }
      var fields := CollectMembers(b, message, rule.fields);
      if !fields.Done? {
        return fields.PropagateFailure();
      }
      var oneof, names := MessageOneof(fields.value, Join(rule.fields), rule.required.GetOr(false)),
                          set n | n in rule.fields;
      AfterOne(level, oneof, names, MessageOneofs(b, message, rules[i + 1..]));
      level := MessageLevel(level.oneofs + [oneof], level.members + names);
      i := i + 1;
    }
    assert level.oneofs + [] == level.oneofs && level.members + {} == level.members;
    assert After(level, Done(MessageLevel([], {}))) == Done(level);
    r := Done(level);
  }

  method CollectMembers(b: Builder, message: MessageDescriptor, names: seq<string>) returns (r: Step<seq<Field>>)
    ensures r == OneofMembers(b, message, names, {})
  {
    var seen: set<string> := {};
    var fields: seq<Field> := [];
    var i := 0;
    assert names[0..] == names;
    assert forall rest: seq<Field> :: [] + rest == rest;
    while i < |names|
      invariant 0 <= i <= |names|
      invariant OneofMembers(b, message, names, {}) ==
                match OneofMembers(b, message, names[i..], seen)
                case Done(rest) => Done(fields + rest)
                case failure => failure
    {
      var name := names[i];
      assert names[i..][1..] == names[i + 1..];
      if name in seen {
        return Failed("duplicate " + name + " in oneof rule for the message " + message.fullName);
      }
      var field := FieldByName(message.fields, name);
      if field.None? {
        return Failed("field " + name + " not found in message " + message.fullName);
      }
      var described := b.Describe(field.value);
      if !described.Done? {
        return described.PropagateFailure();
      }
      seen := seen + {name};
      assert forall rest: seq<Field> :: fields + ([described.value] + rest) == fields + [described.value] + rest;
      fields := fields + [described.value];
      i := i + 1;
    }
    assert fields + [] == fields;
    r := Done(fields);
  }

  /** Only the declared oneofs that must be set, in order. */
  function RequiredOneofs(b: Builder, message: MessageDescriptor,
                          oneofs: seq<OneofDescriptor>): Step<seq<OneofRequired>> {
    if oneofs == [] then Done([])
    else if !oneofs[0].required then RequiredOneofs(b, message, oneofs[1..])
    else
      var members :- b.DescribeAll(Members(message, oneofs[0].fieldIndices));
      var rest :- RequiredOneofs(b, message, oneofs[1..]);
      Done([OneofRequired(OneofElement(oneofs[0].name), members)] + rest)
  }

  function Members(message: MessageDescriptor, indices: seq<nat>): (fs: seq<FieldDescriptor>)
    ensures forall f :: f in fs ==> f in message.fields
  {
    if indices == [] then []
    else (if indices[0] < |message.fields| then [message.fields[indices[0]]] else []) + Members(message, indices[1..])
  }

  /** A field named in a oneof rule is skipped while empty, unless its rules say what to ignore. */
  function EffectiveRules(field: FieldDescriptor, members: set<string>): FieldRules {
    var rules := field.rules.GetOr(NO_RULES);
    if rules.ignore.None? && field.name in members then rules.(ignore := Some(IfZeroValue)) else rules
  }

  /** The compiled fields: those with rules and those that hold messages. */
  function BuildFields(b: Builder, message: MessageDescriptor, fields: seq<FieldDescriptor>, members: set<string>)
    : Step<seq<Result<FieldValidator, string>>>
  {
    if fields == [] then Done([])
    else if fields[0].rules.None? && MessageType(fields[0]).None? then BuildFields(b, message, fields[1..], members)
    else
      match BuildField(b, message, fields[0], EffectiveRules(fields[0], members))
      case Panicked(missing) => Panicked(missing)
      case Failed(error) =>
        var rest :- BuildFields(b, message, fields[1..], members);
        Done([Err(error)] + rest)
      case Done(None) => BuildFields(b, message, fields[1..], members)
      case Done(Some(field)) =>
        var rest :- BuildFields(b, message, fields[1..], members);
        Done([Ok(field)] + rest)
  }

  function BuildMessage(b: Builder, idx: MessageIndex): Step<MessageValidator>
    requires idx < |b.pool|
  {
    var message := b.pool[idx];
    var rules := message.rules.GetOr(MessageRules([], [], []));
    var level :- MessageOneofs(b, message, rules.oneofs);
    var cel :- Compile(b, CustomRules(rules.celExpression, rules.cel, false, []));
    var fields :- BuildFields(b, message, message.fields, level.members);
    var messageType :- b.Resolved(idx);
    var oneofs :- RequiredOneofs(b, message, message.oneofs);
    Done(MessageValidator(messageType, cel, level.oneofs, oneofs, fields))
  }

  /** Where a container leads, by its item or map-value validator. */
  function ShapeNested(shape: FieldShape): Option<MessageIndex> {
    match shape
    case Items(Some(items)) => items.value.nested
    case Entries(_, _, Some(values)) => values.value.nested
    case _ => None
  }

  /** Where the walk goes from here, and so whose failure the field has to share. */
  function NestedType(field: FieldValidator): Option<MessageIndex> {
    if field.value.nested.Some? then field.value.nested else ShapeNested(field.shape)
  }
}
