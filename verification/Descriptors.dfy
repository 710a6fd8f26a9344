/**
 Descriptors as the rules are built from them: plain values, whose `buf.validate`
 options have been read.
 */
module Descriptors {
  import opened Wrappers

  // ------------------------------------------------------- buf.validate options

  datatype Ignore = Unspecified | IfZeroValue | Always

  datatype Rule = Rule(id: Option<string>, message: Option<string>, expression: Option<string>)

  datatype FieldRules = FieldRules(
    celExpression: seq<string>,
    cel: seq<Rule>,
    required: Option<bool>,
    ignore: Option<Ignore>,
    standard: Option<RulesType>)

  /** The `type` cases other than the containers'. */
  type LeafName = name: string | name != "repeated" && name != "map" witness "any"

  /** The `type` oneof. A rules message other than the containers' is a leaf. */
  datatype RulesType =
    | Repeated(minItems: Option<nat>, maxItems: Option<nat>, unique: Option<bool>, items: Option<FieldRules>)
    | Map(minPairs: Option<nat>, maxPairs: Option<nat>, keys: Option<FieldRules>, values: Option<FieldRules>)
    | Leaf(name: LeafName, body: seq<int>)

  datatype MessageOneofRule = MessageOneofRule(fields: seq<string>, required: Option<bool>)

  datatype MessageRules = MessageRules(celExpression: seq<string>, cel: seq<Rule>, oneofs: seq<MessageOneofRule>)

  const NO_RULES := FieldRules([], [], None, None, None)

  // ---------------------------------------------------------------- descriptors

  type MessageIndex = nat

  datatype Scalar =
    | Double | Float | Int64 | Uint64 | Int32 | Fixed64 | Fixed32 | Bool | String | Bytes
    | Uint32 | Sfixed32 | Sfixed64 | Sint32 | Sint64

  datatype SingularKind = ScalarOf(scalar: Scalar) | EnumOf(index: nat) | MessageOf(message: MessageIndex)

  datatype Kind =
    | Singular(kind: SingularKind)
    | ListOf(element: SingularKind)
    | MapOf(key: Scalar, value: SingularKind)

  datatype Presence = Explicit | Implicit | LegacyRequired

  datatype FieldDescriptor = FieldDescriptor(
    number: nat,
    name: string,
    kind: Kind,
    presence: Presence,
    delimited: bool,
    rules: Option<FieldRules>)

  datatype OneofDescriptor = OneofDescriptor(name: string, required: bool, fieldIndices: seq<nat>)

  datatype MessageDescriptor = MessageDescriptor(
    fullName: string,
    fields: seq<FieldDescriptor>,
    oneofs: seq<OneofDescriptor>,
    rules: Option<MessageRules>)

  type Pool = seq<MessageDescriptor>

  /** What a field refers to: the type of its message, its items or its map values. */
  function MessageType(field: FieldDescriptor): Option<MessageIndex> {
    match field.kind
    case Singular(MessageOf(m)) => Some(m)
    case ListOf(MessageOf(m)) => Some(m)
    case MapOf(_, MessageOf(m)) => Some(m)
    case _ => None
  }

  function FieldByNumber(fields: seq<FieldDescriptor>, number: nat): (r: Option<FieldDescriptor>)
    ensures r.Some? ==> r.value in fields && r.value.number == number
    ensures r.None? ==> forall f :: f in fields ==> f.number != number
  {
    if fields == [] then None
    else if fields[0].number == number then Some(fields[0])
    else FieldByNumber(fields[1..], number)
  }

  function FieldByName(fields: seq<FieldDescriptor>, name: string): (r: Option<FieldDescriptor>)
    ensures r.Some? ==> r.value in fields && r.value.name == name
    ensures r.None? ==> forall f :: f in fields ==> f.name != name
  {
    if fields == [] then None
    else if fields[0].name == name then Some(fields[0])
    else FieldByName(fields[1..], name)
  }

  /** The types that the fields of a type refer to. */
  ghost predicate Refers(pool: Pool, a: MessageIndex, b: MessageIndex) {
    a < |pool| && exists f :: f in pool[a].fields && MessageType(f) == Some(b)
  }

  /** A linked pool: every type referred to is in it. */
  ghost predicate Linked(pool: Pool) {
    forall a: MessageIndex, b: MessageIndex :: Refers(pool, a, b) ==> b < |pool|
  }

  /** The types a message's rules refer to: its own, and its fields'. */
  ghost function Needed(pool: Pool, i: MessageIndex): (s: set<MessageIndex>)
    requires Linked(pool) && i < |pool|
    ensures i in s
    ensures forall b :: b in s ==> b < |pool|
    ensures forall b: MessageIndex :: Refers(pool, i, b) ==> b in s
  {
    {i} + set b: MessageIndex | 0 <= b < |pool| && Refers(pool, i, b)
  }
}
