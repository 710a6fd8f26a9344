/** Path elements, as `buf.validate.FieldPathElement` describes them. */
module Elements {
  import opened Wrappers
  import Codec
  import D = Descriptors

  datatype Subscript =
    | Index(index: nat)
    | BoolKey(bit: bool)
    | IntKey(signed: int)
    | UintKey(unsigned: nat)
    | StringKey(text: string)

  /** A `FieldDescriptorProto.Type`. */
  type ProtoType = t: int | 1 <= t <= 18 witness 1

  const TYPE_GROUP: ProtoType := 10
  const TYPE_MESSAGE: ProtoType := 11
  const TYPE_ENUM: ProtoType := 14

  datatype Element = Element(
    number: Option<Codec.int32>,
    name: Option<string>,
    fieldType: Option<ProtoType>,
    keyType: Option<ProtoType>,
    valueType: Option<ProtoType>,
    subscript: Option<Subscript>)

  function ScalarType(s: D.Scalar): ProtoType {
    match s
    case Double => 1
    case Float => 2
    case Int64 => 3
    case Uint64 => 4
    case Int32 => 5
    case Fixed64 => 6
    case Fixed32 => 7
    case Bool => 8
    case String => 9
    case Bytes => 12
    case Uint32 => 13
    case Sfixed32 => 15
    case Sfixed64 => 16
    case Sint32 => 17
    case Sint64 => 18
  }

  function SingularType(k: D.SingularKind): ProtoType {
    match k
    case ScalarOf(s) => ScalarType(s)
    case EnumOf(_) => TYPE_ENUM
    case MessageOf(_) => TYPE_MESSAGE
  }

  /** The type protovalidate reports for a field. */
  function FieldProtoType(field: D.FieldDescriptor): ProtoType {
    match field.kind
    case MapOf(_, _) => TYPE_MESSAGE
    case Singular(k) => if k.MessageOf? && field.delimited then TYPE_GROUP else SingularType(k)
    case ListOf(k) => if k.MessageOf? && field.delimited then TYPE_GROUP else SingularType(k)
  }

  /** Field numbers are 32-bit; one too large saturates. */
  function FieldNumber(number: nat): Codec.int32 {
    if number < 0x8000_0000 then number else 0x7FFF_FFFF
  }

  function Named(number: nat, name: string, ty: ProtoType): Element {
    Element(Some(FieldNumber(number)), Some(name), Some(ty), None, None, None)
  }

  /** How a violation's path refers to a field. */
  function PathElement(field: D.FieldDescriptor): Element {
    Named(field.number, field.name, FieldProtoType(field))
  }

  /** A oneof has no number, so its element is a bare name. */
  function OneofElement(name: string): Element {
    Element(None, Some(name), None, None, None, None)
  }

  /** Paths into a map also say the types of both sides of an entry. */
  function EntryElement(field: D.FieldDescriptor): Element {
    match field.kind
    case MapOf(key, value) =>
      PathElement(field).(keyType := Some(ScalarType(key)), valueType := Some(SingularType(value)))
    case _ => PathElement(field)
  }

  function Indexed(e: Element, index: nat): Element {
    e.(subscript := Some(Index(index)))
  }

  // ----------------------------------- the fields of FieldRules in rule paths

  const CEL := Named(23, "cel", TYPE_MESSAGE)
  const CEL_EXPRESSION := Named(29, "cel_expression", 9)
  const REPEATED := Named(18, "repeated", TYPE_MESSAGE)
  const REPEATED_ITEMS := Named(4, "items", TYPE_MESSAGE)
  const MAP := Named(19, "map", TYPE_MESSAGE)
  const MAP_KEYS := Named(4, "keys", TYPE_MESSAGE)
  const MAP_VALUES := Named(5, "values", TYPE_MESSAGE)
}
