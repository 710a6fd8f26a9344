/**
 Violations on their way to Python: encoded as a `buf.validate.Violations` and
 decoded from the bytes, with paths that still lead where they led.
 */
module Violations {
  import opened Wrappers
  import opened Wire
  import opened Codec
  import opened WireForm
  import opened ValidateSchema
  import opened Utf8
  import opened Elements
  import CodecLaws
  import Encoder
  import D = Descriptors
  import B = RuleBuild
  import FieldPaths
  import RulePaths

  datatype Violation = Violation(
    ruleId: Option<string>,
    message: Option<string>,
    forKey: Option<bool>,
    field: Option<seq<Element>>,
    rule: Option<seq<Element>>)

  /** Subscripts are 64-bit. */
  predicate SubscriptOk(s: Subscript) {
    match s
    case Index(n) => n < U64_LIMIT
    case UintKey(n) => n < U64_LIMIT
    case IntKey(i) => -INT64_LIMIT <= i < INT64_LIMIT
    case _ => true
  }

  predicate PathOk(path: seq<Element>) {
    forall i :: 0 <= i < |path| && path[i].subscript.Some? ==> SubscriptOk(path[i].subscript.value)
  }

  predicate ViolationOk(v: Violation) {
    && (v.field.Some? ==> PathOk(v.field.value))
    && (v.rule.Some? ==> PathOk(v.rule.value))
  }

  // ----------------------------------------------------- as generated messages

  function TextSlot(number: nat, text: Option<string>): Slot {
    One(match text case None => None case Some(t) => Some(Entry(number, S(ToUtf8(t)))))
  }

  function TypeSlot(number: nat, ty: Option<ProtoType>): Slot {
    One(match ty case None => None case Some(t) => Some(Entry(number, E(t))))
  }

  function BoolSlot(number: nat, b: Option<bool>): Slot {
    One(match b case None => None case Some(bit) => Some(Entry(number, B(bit))))
  }

  function NumberSlot(number: nat, i: Option<int32>): Slot {
    One(match i case None => None case Some(n) => Some(Entry(number, I32(n))))
  }

  function SubscriptSlot(s: Option<Subscript>): Slot
    requires s.Some? ==> SubscriptOk(s.value)
  {
    One(match s case None => None case Some(sub) => Some(SubscriptEntry(sub)))
  }

  function SubscriptEntry(s: Subscript): Entry
    requires SubscriptOk(s)
  {
    match s
    case Index(n) => Entry(6, U64(n))
    case BoolKey(b) => Entry(7, B(b))
    case IntKey(i) => Entry(8, I64(i))
    case UintKey(n) => Entry(9, U64(n))
    case StringKey(t) => Entry(10, S(ToUtf8(t)))
  }

  function ElementMessage(e: Element): Message
    requires e.subscript.Some? ==> SubscriptOk(e.subscript.value)
  {
    Message([
      NumberSlot(1, e.number),
      TextSlot(2, e.name),
      TypeSlot(3, e.fieldType),
      TypeSlot(4, e.keyType),
      TypeSlot(5, e.valueType),
      SubscriptSlot(e.subscript)], [])
  }

  function PathMessage(path: seq<Element>): Message
    requires PathOk(path)
  {
    Message([Many(seq(|path|, i requires 0 <= i < |path| => Entry(1, M(ElementMessage(path[i])))))], [])
  }

  function PathSlot(number: nat, path: Option<seq<Element>>): Slot
    requires path.Some? ==> PathOk(path.value)
  {
    One(match path case None => None case Some(p) => Some(Entry(number, M(PathMessage(p)))))
  }

  function ViolationMessage(v: Violation): Message
    requires ViolationOk(v)
  {
    Message([
      TextSlot(2, v.ruleId),
      TextSlot(3, v.message),
      BoolSlot(4, v.forKey),
      PathSlot(5, v.field),
      PathSlot(6, v.rule)], [])
  }

  function ViolationsMessage(vs: seq<Violation>): Message
    requires forall i :: 0 <= i < |vs| ==> ViolationOk(vs[i])
  {
    Message([Many(seq(|vs|, i requires 0 <= i < |vs| => Entry(1, M(ViolationMessage(vs[i])))))], [])
  }

  // ------------------------------------------------------------- and back again

  function TextOf(s: Slot): Option<string> {
    match s
    case One(Some(Entry(_, S(bytes)))) => if ValidUtf8(bytes) then Some(FromUtf8(bytes)) else None
    case _ => None
  }

  function TypeOf(s: Slot): Option<ProtoType> {
    match s
    case One(Some(Entry(_, E(i)))) => if 1 <= i <= 18 then Some(i) else None
    case _ => None
  }

  function BoolOf(s: Slot): Option<bool> {
    match s
    case One(Some(Entry(_, B(b)))) => Some(b)
    case _ => None
  }

  function NumberOf(s: Slot): Option<int32> {
    match s
    case One(Some(Entry(_, I32(n)))) => Some(n)
    case _ => None
  }

  function SubscriptOf(s: Slot): Option<Subscript> {
    match s
    case One(Some(Entry(number, U64(n)))) => Some(if number == 6 then Index(n) else UintKey(n))
    case One(Some(Entry(_, B(b)))) => Some(BoolKey(b))
    case One(Some(Entry(_, I64(i)))) => Some(IntKey(i))
    case One(Some(Entry(_, S(bytes)))) => if ValidUtf8(bytes) then Some(StringKey(FromUtf8(bytes))) else None
    case _ => None
  }

  function ElementOf(m: Message): Element {
    if |m.slots| != 6 then Element(None, None, None, None, None, None)
    else
      Element(
        NumberOf(m.slots[0]), TextOf(m.slots[1]), TypeOf(m.slots[2]), TypeOf(m.slots[3]), TypeOf(m.slots[4]),
        SubscriptOf(m.slots[5]))
  }

  /** The submessages of a repeated field. */
  function Submessages(s: Slot): seq<Message> {
    match s
    case One(_) => []
    case Many(es) => seq(|es|, i requires 0 <= i < |es| => if es[i].val.M? then es[i].val.message else Message([], []))
  }

  function PathOf(s: Slot): Option<seq<Element>> {
    match s
    case One(Some(Entry(_, M(m)))) =>
      if |m.slots| != 1 then None else
      var elements := Submessages(m.slots[0]);
      Some(seq(|elements|, i requires 0 <= i < |elements| => ElementOf(elements[i])))
    case _ => None
  }

  function ViolationOf(m: Message): Violation {
    if |m.slots| != 5 then Violation(None, None, None, None, None)
    else
      Violation(
        TextOf(m.slots[0]), TextOf(m.slots[1]),
        BoolOf(m.slots[2]),
        PathOf(m.slots[3]), PathOf(m.slots[4]))
  }

  function ViolationsOf(m: Message): seq<Violation> {
    if |m.slots| != 1 then []
    else
      var messages := Submessages(m.slots[0]);
      seq(|messages|, i requires 0 <= i < |messages| => ViolationOf(messages[i]))
  }

  // ------------------------------------------------------------------ nothing lost

  lemma {:induction false} TextBack(number: nat, text: Option<string>)
    ensures TextOf(TextSlot(number, text)) == text
  {
    if text.Some? {
      Utf8RoundTrip(text.value);
    }
  }

  lemma {:induction false} SubscriptBack(s: Option<Subscript>)
    requires s.Some? ==> SubscriptOk(s.value)
    ensures SubscriptOf(SubscriptSlot(s)) == s
  {
    if s.Some? && s.value.StringKey? {
      Utf8RoundTrip(s.value.text);
    }
  }

  lemma {:induction false} ElementBack(e: Element)
    requires e.subscript.Some? ==> SubscriptOk(e.subscript.value)
    ensures ElementOf(ElementMessage(e)) == e
  {
    TextBack(2, e.name);
    SubscriptBack(e.subscript);
  }

  lemma {:induction false} PathBack(number: nat, path: Option<seq<Element>>)
    requires path.Some? ==> PathOk(path.value)
    ensures PathOf(PathSlot(number, path)) == path
  {
    if path.Some? {
      forall i | 0 <= i < |path.value| ensures ElementOf(ElementMessage(path.value[i])) == path.value[i] {
        ElementBack(path.value[i]);
      }
      assert PathOf(PathSlot(number, path)).value == path.value;
    }
  }

  lemma {:induction false} FromSlots(a: Slot, b: Slot, c: Slot, d: Slot, e: Slot)
    ensures var v := ViolationOf(Message([a, b, c, d, e], []));
            && v.ruleId == TextOf(a) && v.message == TextOf(b) && v.forKey == BoolOf(c)
            && v.field == PathOf(d) && v.rule == PathOf(e)
  {
  }

  lemma {:induction false} ViolationBack(v: Violation)
    requires ViolationOk(v)
    ensures ViolationOf(ViolationMessage(v)) == v
  {
    FromSlots(TextSlot(2, v.ruleId), TextSlot(3, v.message), BoolSlot(4, v.forKey), PathSlot(5, v.field),
              PathSlot(6, v.rule));
    TextBack(2, v.ruleId);
    TextBack(3, v.message);
    PathBack(5, v.field);
    PathBack(6, v.rule);
  }

  lemma {:induction false} ViolationsBack(vs: seq<Violation>)
    requires forall i :: 0 <= i < |vs| ==> ViolationOk(vs[i])
    ensures ViolationsOf(ViolationsMessage(vs)) == vs
  {
    forall i | 0 <= i < |vs| ensures ViolationOf(ViolationMessage(vs[i])) == vs[i] {
      ViolationBack(vs[i]);
    }
  }

  // ------------------------------------------------------------- well-formedness

  /** The tables of the violation family. */
  ghost predicate HasTables(schema: Schema) {
    && VIOLATIONS in schema && schema[VIOLATIONS] == VIOLATIONS_FIELDS
    && VIOLATION in schema && schema[VIOLATION] == VIOLATION_FIELDS
    && FIELD_PATH in schema && schema[FIELD_PATH] == FIELD_PATH_FIELDS
    && FIELD_PATH_ELEMENT in schema && schema[FIELD_PATH_ELEMENT] == FIELD_PATH_ELEMENT_FIELDS
  }

  lemma {:induction false} TextTyped(schema: Schema, t: Table, j: nat, number: nat, text: Option<string>)
    requires j < |t.repeated| && !t.repeated[j] && number in t.fields && t.fields[number] == FieldType(j, Kind.Text)
    ensures SlotTyped(schema, t, j, TextSlot(number, text))
  {
    if text.Some? {
      Utf8RoundTrip(text.value);
    }
  }

  lemma {:induction false} TypeTyped(schema: Schema, t: Table, j: nat, number: nat, ty: Option<ProtoType>)
    requires j < |t.repeated| && !t.repeated[j]
    requires number in t.fields && t.fields[number] == FieldType(j, Enum(FIELD_TYPES))
    ensures SlotTyped(schema, t, j, TypeSlot(number, ty))
  {
  }

  lemma {:induction false} SubscriptTyped(schema: Schema, s: Option<Subscript>)
    requires s.Some? ==> SubscriptOk(s.value)
    ensures SlotTyped(schema, FIELD_PATH_ELEMENT_FIELDS, 5, SubscriptSlot(s))
  {
    if s.Some? {
      if s.value.StringKey? {
        Utf8RoundTrip(s.value.text);
      }
      assert EntryTyped(schema, FIELD_PATH_ELEMENT_FIELDS, 5, SubscriptEntry(s.value));
    }
  }

  lemma {:induction false} NumberTyped(schema: Schema, n: Option<int32>)
    ensures SlotTyped(schema, FIELD_PATH_ELEMENT_FIELDS, 0, NumberSlot(1, n))
  {
    assert n.Some? ==> EntryTyped(schema, FIELD_PATH_ELEMENT_FIELDS, 0, Entry(1, I32(n.value)));
  }

  lemma {:induction false} ElementTyped(schema: Schema, e: Element)
    requires HasTables(schema)
    requires e.subscript.Some? ==> SubscriptOk(e.subscript.value)
    ensures Typed(schema, FIELD_PATH_ELEMENT, ElementMessage(e))
  {
    var t := FIELD_PATH_ELEMENT_FIELDS;
    NumberTyped(schema, e.number);
    TextTyped(schema, t, 1, 2, e.name);
    TypeTyped(schema, t, 2, 3, e.fieldType);
    TypeTyped(schema, t, 3, 4, e.keyType);
    TypeTyped(schema, t, 4, 5, e.valueType);
    SubscriptTyped(schema, e.subscript);
  }

  lemma {:induction false} PathTyped(schema: Schema, path: seq<Element>)
    requires HasTables(schema) && PathOk(path)
    ensures Typed(schema, FIELD_PATH, PathMessage(path))
  {
    var es := PathMessage(path).slots[0].entries;
    forall i | 0 <= i < |es| ensures EntryTyped(schema, FIELD_PATH_FIELDS, 0, es[i]) {
      ElementTyped(schema, path[i]);
    }
    assert EntriesTyped(schema, FIELD_PATH_FIELDS, 0, es);
  }

  lemma {:induction false} PathSlotTyped(schema: Schema, j: nat, number: nat, path: Option<seq<Element>>)
    requires HasTables(schema) && (path.Some? ==> PathOk(path.value))
    requires (j == 3 && number == 5) || (j == 4 && number == 6)
    ensures SlotTyped(schema, VIOLATION_FIELDS, j, PathSlot(number, path))
  {
    if path.Some? {
      PathTyped(schema, path.value);
    }
  }

  lemma {:induction false} ViolationTyped(schema: Schema, v: Violation)
    requires HasTables(schema) && ViolationOk(v)
    ensures Typed(schema, VIOLATION, ViolationMessage(v))
  {
    TextTyped(schema, VIOLATION_FIELDS, 0, 2, v.ruleId);
    TextTyped(schema, VIOLATION_FIELDS, 1, 3, v.message);
    PathSlotTyped(schema, 3, 5, v.field);
    PathSlotTyped(schema, 4, 6, v.rule);
  }

  lemma {:induction false} ViolationsTyped(schema: Schema, vs: seq<Violation>)
    requires HasTables(schema) && forall i :: 0 <= i < |vs| ==> ViolationOk(vs[i])
    ensures Typed(schema, VIOLATIONS, ViolationsMessage(vs))
  {
    var es := ViolationsMessage(vs).slots[0].entries;
    forall i | 0 <= i < |es| ensures EntryTyped(schema, VIOLATIONS_FIELDS, 0, es[i]) {
      ViolationTyped(schema, vs[i]);
    }
    assert EntriesTyped(schema, VIOLATIONS_FIELDS, 0, es);
  }

  // -------------------------------------------------------------------- on the wire

  function TextRecs(number: nat, text: Option<string>): seq<Rec> {
    if text.None? then [] else [Rec(number, Len(ToUtf8(text.value)))]
  }

  function SignedRecs(number: nat, i: Option<int32>): seq<Rec> {
    if i.None? then []
    else [Rec(number, Varint(if i.value < 0 then i.value + 0x1_0000_0000_0000_0000 else i.value))]
  }

  function TypeRecs(number: nat, ty: Option<ProtoType>): seq<Rec> {
    if ty.None? then [] else [Rec(number, Varint(ty.value))]
  }

  function BitRecs(number: nat, bit: Option<bool>): seq<Rec> {
    if bit.None? then [] else [Rec(number, Varint(if bit.value then 1 else 0))]
  }

  /** An index is field 6; a key is the field of its own type. */
  function SubscriptRecs(s: Option<Subscript>): seq<Rec>
    requires s.Some? ==> SubscriptOk(s.value)
  {
    match s
    case None => []
    case Some(Index(n)) => [Rec(6, Varint(n))]
    case Some(BoolKey(bit)) => [Rec(7, Varint(if bit then 1 else 0))]
    case Some(IntKey(i)) => [Rec(8, Varint(if i < 0 then i + 0x1_0000_0000_0000_0000 else i))]
    case Some(UintKey(n)) => [Rec(9, Varint(n))]
    case Some(StringKey(text)) => [Rec(10, Len(ToUtf8(text)))]
  }

  function ElementRecs(e: Element): seq<Rec>
    requires e.subscript.Some? ==> SubscriptOk(e.subscript.value)
  {
    SignedRecs(1, e.number) + TextRecs(2, e.name) + TypeRecs(3, e.fieldType) + TypeRecs(4, e.keyType)
    + TypeRecs(5, e.valueType) + SubscriptRecs(e.subscript)
  }

  /** A path is one record for each element. */
  function PathRecs(number: nat, path: Option<seq<Element>>): seq<Rec>
    requires path.Some? ==> PathOk(path.value)
  {
    if path.None? then []
    else
      var p := path.value;
      [Rec(number, Len(RecsForm(seq(|p|, i requires 0 <= i < |p| => Rec(1, Len(RecsForm(ElementRecs(p[i]))))))))]
  }

  function ViolationRecs(v: Violation): seq<Rec>
    requires ViolationOk(v)
  {
    TextRecs(2, v.ruleId) + TextRecs(3, v.message) + BitRecs(4, v.forKey) + PathRecs(5, v.field)
    + PathRecs(6, v.rule)
  }

  /** The bytes of violations: one record for each, in order. */
  function ViolationsForm(vs: seq<Violation>): seq<byte>
    requires forall i :: 0 <= i < |vs| ==> ViolationOk(vs[i])
  {
    RecsForm(seq(|vs|, i requires 0 <= i < |vs| => Rec(1, Len(RecsForm(ViolationRecs(vs[i]))))))
  }

  lemma {:induction false} RepeatedRecs(es: seq<Entry>, rs: seq<Rec>)
    requires |rs| == |es| && forall i :: 0 <= i < |es| ==> EntryRec(es[i]) == rs[i]
    ensures EntriesRecs(es) == rs
  {
    if es != [] {
      RepeatedRecs(es[1..], rs[1..]);
    }
  }

  lemma {:induction false} SlotRec(e: Entry)
    ensures SlotRecs(One(Some(e))) == [Rec(e.number, Payload(e.val))]
  {
  }

  lemma {:induction false} OneSlot(s: Slot)
    ensures SlotsRecs([s]) == SlotRecs(s)
  {
    assert [s][1..] == [];
    assert SlotsRecs([]) == [];
  }

  lemma {:induction false} LastSlot(slots: seq<Slot>, s: Slot)
    ensures SlotsRecs(slots + [s]) == SlotsRecs(slots) + SlotRecs(s)
  {
    if slots == [] {
      assert slots + [s] == [s];
      OneSlot(s);
    } else {
      assert (slots + [s])[1..] == slots[1..] + [s];
      LastSlot(slots[1..], s);
    }
  }

  lemma {:induction false} FiveSlots(a: Slot, b: Slot, c: Slot, d: Slot, e: Slot)
    ensures SlotsRecs([a, b, c, d, e]) == SlotRecs(a) + SlotRecs(b) + SlotRecs(c) + SlotRecs(d) + SlotRecs(e)
  {
    OneSlot(a);
    LastSlot([a], b);
    LastSlot([a, b], c);
    LastSlot([a, b, c], d);
    LastSlot([a, b, c, d], e);
    assert [a] + [b] == [a, b] && [a, b] + [c] == [a, b, c];
    assert [a, b, c] + [d] == [a, b, c, d] && [a, b, c, d] + [e] == [a, b, c, d, e];
  }

  lemma {:induction false} TextWritten(number: nat, text: Option<string>)
    ensures SlotRecs(TextSlot(number, text)) == TextRecs(number, text)
  {
    if text.Some? {
      SlotRec(Entry(number, S(ToUtf8(text.value))));
    }
  }

  lemma {:induction false} TypeWritten(number: nat, ty: Option<ProtoType>)
    ensures SlotRecs(TypeSlot(number, ty)) == TypeRecs(number, ty)
  {
    if ty.Some? {
      SlotRec(Entry(number, E(ty.value)));
    }
  }

  lemma {:induction false} BitWritten(number: nat, bit: Option<bool>)
    ensures SlotRecs(BoolSlot(number, bit)) == BitRecs(number, bit)
  {
    if bit.Some? {
      SlotRec(Entry(number, B(bit.value)));
    }
  }

  lemma {:induction false} NumberWritten(number: nat, i: Option<int32>)
    ensures SlotRecs(NumberSlot(number, i)) == SignedRecs(number, i)
  {
    if i.Some? {
      SlotRec(Entry(number, I32(i.value)));
    }
  }

  lemma {:induction false} SubscriptWritten(s: Option<Subscript>)
    requires s.Some? ==> SubscriptOk(s.value)
    ensures SlotRecs(SubscriptSlot(s)) == SubscriptRecs(s)
  {
    if s.Some? {
      SlotRec(SubscriptEntry(s.value));
    }
  }

  lemma {:induction false} ElementWritten(e: Element)
    requires e.subscript.Some? ==> SubscriptOk(e.subscript.value)
    ensures Fields(ElementMessage(e)) == ElementRecs(e)
  {
    var slots := ElementMessage(e).slots;
    FiveSlots(slots[0], slots[1], slots[2], slots[3], slots[4]);
    LastSlot(slots[..5], slots[5]);
    assert slots[..5] == [slots[0], slots[1], slots[2], slots[3], slots[4]];
    assert slots == slots[..5] + [slots[5]];
    NumberWritten(1, e.number);
    TextWritten(2, e.name);
    TypeWritten(3, e.fieldType);
    TypeWritten(4, e.keyType);
    TypeWritten(5, e.valueType);
    SubscriptWritten(e.subscript);
  }

  lemma {:induction false} SubmessageRec(number: nat, m: Message, rs: seq<Rec>)
    requires Fields(m) == rs
    ensures EntryRec(Entry(number, M(m))) == Rec(number, Len(RecsForm(rs)))
  {
    RecsWritten(rs);
    assert Encode(m) == EncodeRecs(rs);
  }

  lemma {:induction false} ListWritten(es: seq<Entry>, rs: seq<Rec>)
    requires |rs| == |es| && forall i :: 0 <= i < |es| ==> EntryRec(es[i]) == rs[i]
    ensures Fields(Message([Many(es)], [])) == rs
  {
    RepeatedRecs(es, rs);
    OneSlot(Many(es));
    assert SlotRecs(Many(es)) == rs;
  }

  lemma {:induction false} PathWritten(number: nat, path: Option<seq<Element>>)
    requires path.Some? ==> PathOk(path.value)
    ensures SlotRecs(PathSlot(number, path)) == PathRecs(number, path)
  {
    if path.Some? {
      var p := path.value;
      var es := PathMessage(p).slots[0].entries;
      var rs := seq(|p|, i requires 0 <= i < |p| => Rec(1, Len(RecsForm(ElementRecs(p[i])))));
      forall i | 0 <= i < |p| ensures EntryRec(es[i]) == rs[i] {
        ElementWritten(p[i]);
        SubmessageRec(1, ElementMessage(p[i]), ElementRecs(p[i]));
      }
      ListWritten(es, rs);
      SubmessageRec(number, PathMessage(p), rs);
      SlotRec(Entry(number, M(PathMessage(p))));
    }
  }

  lemma {:induction false} ViolationWritten(v: Violation)
    requires ViolationOk(v)
    ensures Fields(ViolationMessage(v)) == ViolationRecs(v)
  {
    FiveSlots(TextSlot(2, v.ruleId), TextSlot(3, v.message), BoolSlot(4, v.forKey), PathSlot(5, v.field),
              PathSlot(6, v.rule));
    TextWritten(2, v.ruleId);
    TextWritten(3, v.message);
    BitWritten(4, v.forKey);
    PathWritten(5, v.field);
    PathWritten(6, v.rule);
  }

  /** The encoding of violations is these bytes. */
  lemma {:induction false} ViolationsWritten(vs: seq<Violation>)
    requires forall i :: 0 <= i < |vs| ==> ViolationOk(vs[i])
    ensures Encode(ViolationsMessage(vs)) == ViolationsForm(vs)
  {
    var es := ViolationsMessage(vs).slots[0].entries;
    var rs := seq(|vs|, i requires 0 <= i < |vs| => Rec(1, Len(RecsForm(ViolationRecs(vs[i])))));
    forall i | 0 <= i < |vs| ensures EntryRec(es[i]) == rs[i] {
      ViolationWritten(vs[i]);
      SubmessageRec(1, ViolationMessage(vs[i]), ViolationRecs(vs[i]));
    }
    ListWritten(es, rs);
    RecsWritten(rs);
  }

  lemma {:induction false} FourRecs(rs: seq<Rec>)
    requires |rs| == 4
    ensures RecsForm(rs) == RecForm(rs[0]) + RecForm(rs[1]) + RecForm(rs[2]) + RecForm(rs[3])
  {
    assert rs[1..][1..] == rs[2..] && rs[2..][1..] == rs[3..] && rs[3..][1..] == [];
    assert RecsForm(rs[3..]) == RecForm(rs[3]);
    assert RecsForm(rs[2..]) == RecForm(rs[2]) + RecsForm(rs[3..]);
    assert RecsForm(rs[1..]) == RecForm(rs[1]) + RecsForm(rs[2..]);
  }

  /** A violation of rule "a" alone, in bytes. */
  lemma {:induction false} RuleIdBytes(v: Violation)
    requires v == Violation(Some("a"), None, None, None, None)
    ensures ViolationsForm([v]) == [0x0A, 3, 0x12, 1, 0x61]
  {
    var inner := ViolationRecs(v);
    assert ToUtf8("a") == [0x61];
    assert inner == [Rec(2, Len([0x61]))];
    assert inner[1..] == [];
    assert RecsForm(inner) == [0x12, 1, 0x61];
    var outer := [Rec(1, Len(RecsForm(inner)))];
    assert outer[1..] == [];
    assert RecsForm(outer) == [0x0A, 3, 0x12, 1, 0x61];
    assert seq(1, i requires 0 <= i < 1 => Rec(1, Len(RecsForm(ViolationRecs([v][i]))))) == outer;
  }

  /** The element of `a[0]`, a list of strings that is field 1. */
  lemma {:induction false} ItemBytes(e: Element)
    requires e == Element(Some(1), Some("a"), Some(9), None, None, Some(Index(0)))
    ensures RecsForm(ElementRecs(e)) == [0x08, 1, 0x12, 1, 0x61, 0x18, 9, 0x30, 0]
  {
    var rs := ElementRecs(e);
    assert ToUtf8("a") == [0x61];
    assert rs == [Rec(1, Varint(1)), Rec(2, Len([0x61])), Rec(3, Varint(9)), Rec(6, Varint(0))];
    FourRecs(rs);
  }

  // -------------------------------------------------------------------- delivery

  /** `encode_violations`; `None` when they are over the size limit. */
  method EncodeViolations(vs: seq<Violation>) returns (bytes: Option<seq<byte>>)
    requires forall i :: 0 <= i < |vs| ==> ViolationOk(vs[i])
    ensures bytes == if |ViolationsForm(vs)| <= 0x7FFF_FFFF then Some(ViolationsForm(vs)) else None
    ensures bytes.Some? ==> Delivers(vs, bytes.value)
  {
    MessageWritten(ViolationsMessage(vs));
    ViolationsWritten(vs);
    bytes := Encoder.EncodeToVec(ViolationsMessage(vs));
    if bytes.Some? {
      Delivered(vs);
    }
  }

  /** Whoever decodes the bytes has the violations, all of them, in order. */
  ghost predicate Delivers(vs: seq<Violation>, bytes: seq<byte>) {
    && SchemaOk(VALIDATE) && VIOLATIONS in VALIDATE
    && Decode(VALIDATE, VIOLATIONS, bytes).Some?
    && ViolationsOf(Decode(VALIDATE, VIOLATIONS, bytes).value) == vs
  }

  lemma {:induction false} Delivered(vs: seq<Violation>)
    requires forall i :: 0 <= i < |vs| ==> ViolationOk(vs[i])
    requires |Encode(ViolationsMessage(vs))| < U64_LIMIT
    ensures Delivers(vs, Encode(ViolationsMessage(vs)))
  {
    ValidateSchemaOk();
    assert HasTables(VALIDATE);
    ViolationsTyped(VALIDATE, vs);
    CodecLaws.RoundTrip(VALIDATE, VIOLATIONS, ViolationsMessage(vs));
    ViolationsBack(vs);
  }

  /**
   From the rule that was compiled to the rule that Python is shown: a violation of a
   custom rule of a field, of its items, keys or values, once encoded and decoded, has a
   rule path that leads from the field's rules to the very entry.
   */
  lemma {:induction false} RuleDelivered(vs: seq<Violation>, i: nat, root: D.FieldRules, part: RulePaths.Part, j: nat)
    requires forall i :: 0 <= i < |vs| ==> ViolationOk(vs[i])
    requires |Encode(ViolationsMessage(vs))| < U64_LIMIT && i < |vs|
    requires RulePaths.Rules(root, part).Some?
    requires var owner := RulePaths.Rules(root, part).value;
             && j < |owner.celExpression| + |owner.cel|
             && vs[i].rule
                == Some(B.CustomRules(owner.celExpression, owner.cel, true, RulePaths.Prefix(part)).rules[j].rulePath)
    ensures Delivers(vs, Encode(ViolationsMessage(vs)))
    ensures var shown := ViolationsOf(Decode(VALIDATE, VIOLATIONS, Encode(ViolationsMessage(vs))).value)[i];
            && shown.rule.Some?
            && RulePaths.RuleValue(Some(RulePaths.RulesMessage(root)), Some(RulePaths.StepsOf(shown.rule.value)))
               == Some(RulePaths.Entry(RulePaths.Rules(root, part).value, j))
  {
    var owner := RulePaths.Rules(root, part).value;
    Delivered(vs);
    RulePaths.CustomRuleAt(owner, RulePaths.Prefix(part), j);
    RulePaths.EntryReached(root, part, owner, j);
  }

  /** The elements of a path present the steps to a location, one for one. */
  ghost predicate Addresses(path: seq<Element>, root: FieldPaths.Py, places: seq<FieldPaths.Place>) {
    var steps := FieldPaths.PathTo(root, places);
    |path| == |steps| && forall k :: 0 <= k < |path| ==> RulePaths.Presents(path[k], steps[k])
  }

  /** Likewise the path of the field that was at fault, when it names a location of the message. */
  lemma {:induction false} FieldDelivered(vs: seq<Violation>, i: nat, root: FieldPaths.Py,
                                          places: seq<FieldPaths.Place>)
    requires forall k :: 0 <= k < |vs| ==> ViolationOk(vs[k])
    requires |Encode(ViolationsMessage(vs))| < U64_LIMIT && i < |vs|
    requires vs[i].field.Some? && Addresses(vs[i].field.value, root, places)
    requires places != [] && FieldPaths.ValueAt(root, places).Some? && FieldPaths.UniqueAlong(root, places)
    ensures Delivers(vs, Encode(ViolationsMessage(vs)))
    ensures var shown := ViolationsOf(Decode(VALIDATE, VIOLATIONS, Encode(ViolationsMessage(vs))).value)[i];
            && shown.field.Some? && Addresses(shown.field.value, root, places)
            && FieldPaths.FieldPathValue(root, Some(RulePaths.StepsOf(shown.field.value)), false)
               == FieldPaths.Found(FieldPaths.ValueAt(root, places), FieldPaths.LeafOf(root, places))
  {
    RulePaths.PathPresents(vs[i].field.value, FieldPaths.PathTo(root, places));
    Delivered(vs);
    FieldPaths.FieldPathRoundTrip(root, places, None);
  }
}
