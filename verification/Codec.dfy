/**
 The generated `buf.validate` codec. Every generated message type is the same
 template filled from its field list, so the template is modelled once, over a
 table of message types (see `ValidateSchema`), and every property below holds
 for all of them. A table lists the fields in the order they are written.
 */
module Codec {
  import opened Wrappers
  import opened Wire

  // ------------------------------------------------------------ message types

  /** The number of a message type in a schema. */
  type TypeId = nat

  datatype Kind =
    | Int32
    | Int64
    | Uint64
    | Bool
    | Enum(known: set<int32>)
    | Text
    | Submessage(ty: TypeId)

  /** What a field number means: the slot that holds the field, and its kind. */
  datatype FieldType = FieldType(slot: nat, kind: Kind)

  /**
   A message type. `repeated` has an entry for every slot, in the order slots
   are written: a repeated field, or a oneof, where a field with presence is a
   oneof of one case.
   */
  datatype Table = Table(repeated: seq<bool>, fields: map<nat, FieldType>)

  type Schema = map<TypeId, Table>

  const INT32_LIMIT: int := 0x8000_0000
  const INT64_LIMIT: int := 0x8000_0000_0000_0000

  type int32 = i: int | -INT32_LIMIT <= i < INT32_LIMIT
  type int64 = i: int | -INT64_LIMIT <= i < INT64_LIMIT

  predicate KindOk(schema: Schema, kind: Kind) {
    match kind
    case Submessage(ty) => ty in schema
    case _ => true
  }

  predicate TableOk(schema: Schema, t: Table) {
    forall number :: number in t.fields ==>
      && NumberOk(number)
      && t.fields[number].slot < |t.repeated|
      && KindOk(schema, t.fields[number].kind)
      && (t.repeated[t.fields[number].slot] ==> !t.fields[number].kind.Enum?)
  }

  predicate SchemaOk(schema: Schema) {
    forall ty :: ty in schema ==> TableOk(schema, schema[ty])
  }

  // ------------------------------------------------------------------ messages

  datatype Val =
    | I32(i: int32)
    | I64(l: int64)
    | U64(n: u64)
    | B(b: bool)
    | E(i: int32)
    | S(text: seq<byte>)
    | M(message: Message)

  datatype Entry = Entry(number: nat, val: Val)

  datatype Slot = One(entry: Option<Entry>) | Many(entries: seq<Entry>)

  datatype Message = Message(slots: seq<Slot>, unknown: seq<Rec>)

  function EmptySlot(repeated: bool): Slot {
    if repeated then Many([]) else One(None)
  }

  function Default(schema: Schema, ty: TypeId): (m: Message)
    requires ty in schema
    ensures |m.slots| == |schema[ty].repeated|
  {
    Message(seq(|schema[ty].repeated|, i requires 0 <= i < |schema[ty].repeated| => EmptySlot(schema[ty].repeated[i])),
            [])
  }

  // ------------------------------------------------------------------- scalars

  /** Integers are written as 64-bit two's complement. */
  function FromInt(i: int64): u64 {
    if i >= 0 then i else i + U64_LIMIT
  }

  /** The low 32 bits, signed. */
  function ToInt32(n: u64): int32 {
    var low := n % (2 * INT32_LIMIT);
    if low < INT32_LIMIT then low else low - 2 * INT32_LIMIT
  }

  function ToInt64(n: u64): int64 {
    if n < INT64_LIMIT then n else n - U64_LIMIT
  }

  predicate Continuation(b: byte) {
    0x80 <= b < 0xC0
  }

  /** Well-formed UTF-8, after table 3-7 of the Unicode standard. */
  predicate ValidUtf8(bs: seq<byte>) {
    if bs == [] then true
    else if bs[0] < 0x80 then ValidUtf8(bs[1..])
    else if 0xC2 <= bs[0] <= 0xDF then
      |bs| >= 2 && Continuation(bs[1]) && ValidUtf8(bs[2..])
    else if 0xE0 <= bs[0] <= 0xEF then
      && |bs| >= 3 && Continuation(bs[1]) && Continuation(bs[2])
      && (bs[0] == 0xE0 ==> bs[1] >= 0xA0) && (bs[0] == 0xED ==> bs[1] < 0xA0)
      && ValidUtf8(bs[3..])
    else if 0xF0 <= bs[0] <= 0xF4 then
      && |bs| >= 4 && Continuation(bs[1]) && Continuation(bs[2]) && Continuation(bs[3])
      && (bs[0] == 0xF0 ==> bs[1] >= 0x90) && (bs[0] == 0xF4 ==> bs[1] < 0x90)
      && ValidUtf8(bs[4..])
    else false
  }

  // ------------------------------------------------------------------ encoding

  function Payload(v: Val): Data
    decreases v, 1
  {
    match v
    case I32(i) => Varint(FromInt(i))
    case I64(i) => Varint(FromInt(i))
    case U64(n) => Varint(n)
    case B(b) => Varint(if b then 1 else 0)
    case E(i) => Varint(FromInt(i))
    case S(text) => Len(text)
    case M(m) => Len(Encode(m))
  }

  function EntryRec(e: Entry): Rec
    decreases e, 2
  {
    Rec(e.number, Payload(e.val))
  }

  function EntriesRecs(es: seq<Entry>): (rs: seq<Rec>)
    ensures |rs| == |es|
    decreases es, 3
  {
    if es == [] then [] else [EntryRec(es[0])] + EntriesRecs(es[1..])
  }

  function SlotRecs(s: Slot): seq<Rec>
    decreases s, 4
  {
    match s
    case One(None) => []
    case One(Some(e)) => [EntryRec(e)]
    case Many(es) => EntriesRecs(es)
  }

  function SlotsRecs(slots: seq<Slot>): seq<Rec>
    decreases slots, 5
  {
    if slots == [] then [] else SlotRecs(slots[0]) + SlotsRecs(slots[1..])
  }

  /** A message is its fields in table order, then its unknown fields. */
  function Fields(m: Message): seq<Rec>
    decreases m, 6
  {
    SlotsRecs(m.slots) + m.unknown
  }

  function Encode(m: Message): seq<byte>
    decreases m, 7
  {
    EncodeRecs(Fields(m))
  }

  // ------------------------------------------------------------------ decoding

  /** A scalar from its payload: `None` for a wrong wire type or bad text. */
  function DecodeScalar(kind: Kind, d: Data): Option<Val>
    requires !kind.Enum? && !kind.Submessage?
  {
    match (kind, d)
    case (Int32, Varint(n)) => Some(I32(ToInt32(n)))
    case (Int64, Varint(n)) => Some(I64(ToInt64(n)))
    case (Uint64, Varint(n)) => Some(U64(n))
    case (Bool, Varint(n)) => Some(B(n != 0))
    case (Text, Len(bytes)) => if ValidUtf8(bytes) then Some(S(bytes)) else None
    case _ => None
  }

  predicate Packable(kind: Kind) {
    kind.Int32? || kind.Int64? || kind.Uint64? || kind.Bool?
  }

  /** The values of a packed run. */
  function Unpack(number: nat, kind: Kind, bs: seq<byte>): Option<seq<Entry>>
    requires Packable(kind)
    decreases |bs|
  {
    if bs == [] then Some([])
    else
      var (n, rest) :- DecodeVarint(bs);
      var v :- DecodeScalar(kind, Varint(n));
      var vs :- Unpack(number, kind, rest);
      Some([Entry(number, v)] + vs)
  }

  // ---------------------------------------------------------- well-formedness

  predicate ValTyped(schema: Schema, kind: Kind, v: Val)
    decreases v
  {
    match (kind, v)
    case (Int32, I32(_)) => true
    case (Int64, I64(_)) => true
    case (Uint64, U64(_)) => true
    case (Bool, B(_)) => true
    case (Enum(known), E(i)) => i in known
    case (Text, S(text)) => ValidUtf8(text)
    case (Submessage(sub), M(m)) => Typed(schema, sub, m)
    case _ => false
  }

  predicate EntryTyped(schema: Schema, t: Table, j: nat, e: Entry)
    decreases e
  {
    && e.number in t.fields && t.fields[e.number].slot == j
    && ValTyped(schema, t.fields[e.number].kind, e.val)
  }

  predicate EntriesTyped(schema: Schema, t: Table, j: nat, es: seq<Entry>)
    decreases es
  {
    forall i :: 0 <= i < |es| ==> EntryTyped(schema, t, j, es[i])
  }

  predicate SlotTyped(schema: Schema, t: Table, j: nat, s: Slot)
    decreases s
  {
    && j < |t.repeated|
    && match s
       case One(None) => !t.repeated[j]
       case One(Some(e)) => !t.repeated[j] && EntryTyped(schema, t, j, e)
       case Many(es) => t.repeated[j] && EntriesTyped(schema, t, j, es)
  }

  /**
   An unknown field: a number the type does not have, or an enum number that
   names no value, kept as the sign-extended varint it was read from.
   */
  predicate UnknownOk(t: Table, r: Rec) {
    && RecOk(r)
    && (r.number in t.fields ==>
         match t.fields[r.number].kind
         case Enum(known) =>
           r.data.Varint? && ToInt32(r.data.n) !in known && r.data.n == FromInt(ToInt32(r.data.n))
         case _ => false)
  }

  predicate Typed(schema: Schema, ty: TypeId, m: Message)
    decreases m
  {
    && ty in schema
    && |m.slots| == |schema[ty].repeated|
    && (forall j :: 0 <= j < |m.slots| ==> SlotTyped(schema, schema[ty], j, m.slots[j]))
    && (forall i :: 0 <= i < |m.unknown| ==> UnknownOk(schema[ty], m.unknown[i]))
  }

  // ------------------------------------------------------------------- merging

  lemma {:induction false} EntriesTypedAppend(schema: Schema, t: Table, j: nat, a: seq<Entry>, b: seq<Entry>)
    requires EntriesTyped(schema, t, j, a) && EntriesTyped(schema, t, j, b)
    ensures EntriesTyped(schema, t, j, a + b)
  {
  }

  /** Slot `j` after one more value: appended, or the last one. */
  function Store(schema: Schema, ty: TypeId, m: Message, j: nat, e: Entry): (res: Message)
    requires Typed(schema, ty, m) && j < |m.slots| && EntryTyped(schema, schema[ty], j, e)
    ensures Typed(schema, ty, res)
  {
    assert SlotTyped(schema, schema[ty], j, m.slots[j]);
    if m.slots[j].Many? then
      EntriesTypedAppend(schema, schema[ty], j, m.slots[j].entries, [e]);
      StoreAll(schema, ty, m, j, [e])
    else
      m.(slots := m.slots[j := One(Some(e))])
  }

  function StoreAll(schema: Schema, ty: TypeId, m: Message, j: nat, es: seq<Entry>): (res: Message)
    requires Typed(schema, ty, m) && j < |m.slots| && m.slots[j].Many?
    requires EntriesTyped(schema, schema[ty], j, es)
    ensures Typed(schema, ty, res)
  {
    assert SlotTyped(schema, schema[ty], j, m.slots[j]);
    EntriesTypedAppend(schema, schema[ty], j, m.slots[j].entries, es);
    m.(slots := m.slots[j := Many(m.slots[j].entries + es)])
  }

  /** The submessage that a record of field `number` is merged into. */
  function Existing(schema: Schema, s: Slot, number: nat, ty: TypeId): Message
    requires ty in schema
  {
    match s
    case One(Some(Entry(n, M(m)))) => if n == number then m else Default(schema, ty)
    case _ => Default(schema, ty)
  }

  function RecSize(r: Rec): nat {
    if r.data.Len? then |r.data.bytes| else 0
  }

  /** One record merged into a message; `None` is a decode error. */
  function MergeRec(schema: Schema, ty: TypeId, m: Message, r: Rec): (res: Option<Message>)
    requires SchemaOk(schema) && Typed(schema, ty, m) && RecOk(r)
    ensures res.Some? ==> Typed(schema, ty, res.value)
    decreases RecSize(r), 2
  {
    if r.number !in schema[ty].fields then
      Some(m.(unknown := m.unknown + [r]))
    else
      var FieldType(j, kind) := schema[ty].fields[r.number];
      assert SlotTyped(schema, schema[ty], j, m.slots[j]);
      if kind.Submessage? then
        if !r.data.Len? then None else
        ExistingTyped(schema, schema[ty], j, m.slots[j], r.number);
        var v :- MergeBytes(schema, kind.ty, Existing(schema, m.slots[j], r.number, kind.ty), r.data.bytes);
        Some(Store(schema, ty, m, j, Entry(r.number, M(v))))
      else if kind.Enum? then
        if !r.data.Varint? then None else
        var raw := ToInt32(r.data.n);
        if raw in kind.known then Some(Store(schema, ty, m, j, Entry(r.number, E(raw))))
        else Some(m.(unknown := m.unknown + [Rec(r.number, Varint(FromInt(raw)))]))
      else if schema[ty].repeated[j] && Packable(kind) && r.data.Len? then
        var es :- Unpack(r.number, kind, r.data.bytes);
        UnpackTyped(schema, schema[ty], r.number, r.data.bytes);
        Some(StoreAll(schema, ty, m, j, es))
      else
        var v :- DecodeScalar(kind, r.data);
        Some(Store(schema, ty, m, j, Entry(r.number, v)))
  }

  function MergeBytes(schema: Schema, ty: TypeId, m: Message, bs: seq<byte>): (res: Option<Message>)
    requires SchemaOk(schema) && Typed(schema, ty, m)
    ensures res.Some? ==> Typed(schema, ty, res.value)
    decreases |bs|, 1
  {
    if bs == [] then Some(m) else
    var (r, rest) :- ParseRec(bs);
    var m1 :- MergeRec(schema, ty, m, r);
    MergeBytes(schema, ty, m1, rest)
  }

  function Decode(schema: Schema, ty: TypeId, bs: seq<byte>): Option<Message>
    requires SchemaOk(schema) && ty in schema
  {
    MergeBytes(schema, ty, Default(schema, ty), bs)
  }

  lemma {:induction false} ExistingTyped(schema: Schema, t: Table, j: nat, s: Slot, number: nat)
    requires SlotTyped(schema, t, j, s) && number in t.fields
    requires t.fields[number].kind.Submessage? && t.fields[number].kind.ty in schema
    ensures var sub := t.fields[number].kind.ty; Typed(schema, sub, Existing(schema, s, number, sub))
  {
    match s
    case One(Some(e)) =>
      assert EntryTyped(schema, t, j, e);
      assert e.number == number ==> ValTyped(schema, t.fields[number].kind, e.val);
    case _ =>
  }

  lemma {:induction false} UnpackTyped(schema: Schema, t: Table, number: nat, bs: seq<byte>)
    requires number in t.fields && Packable(t.fields[number].kind)
    ensures var es := Unpack(number, t.fields[number].kind, bs);
            es.Some? ==> EntriesTyped(schema, t, t.fields[number].slot, es.value)
    decreases |bs|
  {
    var kind := t.fields[number].kind;
    if bs != [] && Unpack(number, kind, bs).Some? {
      var (n, rest) := DecodeVarint(bs).value;
      UnpackTyped(schema, t, number, rest);
      var v := DecodeScalar(kind, Varint(n)).value;
      assert EntryTyped(schema, t, t.fields[number].slot, Entry(number, v));
      assert Unpack(number, kind, bs).value == [Entry(number, v)] + Unpack(number, kind, rest).value;
    }
  }
}
