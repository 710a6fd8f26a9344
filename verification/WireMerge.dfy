/** What bytes decode to, in literal numbers: each record's value, and where it goes. */
module WireMerge {
  import opened Wrappers
  import opened Wire
  import opened Codec
  import opened WireForm

  /** The value of a scalar field, from its payload. */
  predicate ScalarRead(kind: Kind, d: Data, v: Val) {
    match kind
    case Int32 => d.Varint? && v.I32? && (d.n - v.i) % 0x1_0000_0000 == 0
    case Int64 => d.Varint? && v.I64? && d.n == if v.l < 0 then v.l + 0x1_0000_0000_0000_0000 else v.l
    case Uint64 => d.Varint? && v == U64(d.n)
    case Bool => d.Varint? && v == B(d.n != 0)
    case Text => d.Len? && v == S(d.bytes) && ValidUtf8(d.bytes)
    case _ => false
  }

  lemma {:induction false} ScalarReads(kind: Kind, d: Data, v: Val)
    requires !kind.Enum? && !kind.Submessage?
    ensures DecodeScalar(kind, d) == Some(v) <==> ScalarRead(kind, d, v)
  {
    if kind.Int32? && d.Varint? && v.I32? {
      LowBits(d.n, v.i);
    }
  }

  /** The low 32 bits of a varint, signed. */
  lemma {:induction false} LowBits(n: u64, i: int32)
    ensures ToInt32(n) == i <==> (n - i) % 0x1_0000_0000 == 0
  {
  }

  /** The values of a packed run, one varint after the other. */
  ghost predicate RunRead(number: nat, kind: Kind, bs: seq<byte>, es: seq<Entry>)
    decreases |es|
  {
    if es == [] then bs == []
    else exists n: u64, tail ::
      VarintRead(bs, n, tail) && ScalarRead(kind, Varint(n), es[0].val) && es[0].number == number &&
      RunRead(number, kind, tail, es[1..])
  }

  lemma {:induction false} FirstOfRun(number: nat, kind: Kind, bs: seq<byte>, es: seq<Entry>)
    returns (n: u64, tail: seq<byte>)
    requires es != [] && RunRead(number, kind, bs, es)
    ensures VarintRead(bs, n, tail) && ScalarRead(kind, Varint(n), es[0].val)
    ensures es[0].number == number && RunRead(number, kind, tail, es[1..])
  {
    n, tail :| VarintRead(bs, n, tail) && ScalarRead(kind, Varint(n), es[0].val) && es[0].number == number &&
               RunRead(number, kind, tail, es[1..]);
  }

  lemma {:induction false} RunGives(number: nat, kind: Kind, bs: seq<byte>)
    requires Packable(kind) && Unpack(number, kind, bs).Some?
    ensures RunRead(number, kind, bs, Unpack(number, kind, bs).value)
    decreases |bs|
  {
    if bs != [] {
      var (n, tail) := DecodeVarint(bs).value;
      var v := DecodeScalar(kind, Varint(n)).value;
      VarintReads(bs, n, tail);
      ScalarReads(kind, Varint(n), v);
      RunGives(number, kind, tail);
      assert Unpack(number, kind, bs).value[1..] == Unpack(number, kind, tail).value;
    }
  }

  lemma {:induction false} RunTaken(number: nat, kind: Kind, bs: seq<byte>, es: seq<Entry>)
    requires Packable(kind) && RunRead(number, kind, bs, es)
    ensures Unpack(number, kind, bs) == Some(es)
    decreases |es|
  {
    if es != [] {
      var n, tail := FirstOfRun(number, kind, bs, es);
      VarintReads(bs, n, tail);
      ScalarReads(kind, Varint(n), es[0].val);
      RunTaken(number, kind, tail, es[1..]);
      assert [es[0]] + es[1..] == es;
    }
  }

  /** Values are added to a repeated field; elsewhere the last one stays. */
  predicate Stored(m: Message, j: nat, es: seq<Entry>, after: Message) {
    && after.unknown == m.unknown
    && |after.slots| == |m.slots| && j < |m.slots|
    && (forall i :: 0 <= i < |m.slots| && i != j ==> after.slots[i] == m.slots[i])
    && match m.slots[j]
       case Many(had) => after.slots[j] == Many(had + es)
       case One(_) => |es| == 1 && after.slots[j] == One(Some(es[0]))
  }

  predicate Kept(m: Message, r: Rec, after: Message) {
    after.slots == m.slots && after.unknown == m.unknown + [r]
  }

  predicate Blank(schema: Schema, ty: TypeId, m: Message) {
    && ty in schema && m.unknown == [] && |m.slots| == |schema[ty].repeated|
    && forall j :: 0 <= j < |m.slots| ==> m.slots[j] == if schema[ty].repeated[j] then Many([]) else One(None)
  }

  /** A submessage is merged into the one that is there under its number, if any. */
  predicate Onto(schema: Schema, s: Slot, number: nat, ty: TypeId, m: Message) {
    match s
    case One(Some(Entry(n, M(held)))) => if n == number then m == held else Blank(schema, ty, m)
    case _ => Blank(schema, ty, m)
  }

  /** What a record makes of a message. */
  ghost predicate RecMerged(schema: Schema, ty: TypeId, m: Message, r: Rec, after: Message)
    decreases RecSize(r), 2
  {
    ty in schema &&
    if r.number !in schema[ty].fields then Kept(m, r, after)
    else
      var FieldType(j, kind) := schema[ty].fields[r.number];
      j < |m.slots| && j < |schema[ty].repeated| &&
      match kind
      case Submessage(sub) =>
        r.data.Len? && exists held, v ::
          Onto(schema, m.slots[j], r.number, sub, held) && BytesMerged(schema, sub, held, r.data.bytes, v) &&
          Stored(m, j, [Entry(r.number, M(v))], after)
      case Enum(known) => r.data.Varint? && EnumMerged(m, j, r.number, known, r.data.n, after)
      case _ =>
        if schema[ty].repeated[j] && r.data.Len? && !kind.Text? then
          exists es :: RunRead(r.number, kind, r.data.bytes, es) && Stored(m, j, es, after)
        else exists v :: ScalarRead(kind, r.data, v) && Stored(m, j, [Entry(r.number, v)], after)
  }

  /** An enum number that names no value is an unknown field. */
  ghost predicate EnumMerged(m: Message, j: nat, number: nat, known: set<int32>, n: u64, after: Message) {
    exists i: int32 {:trigger E(i)} ::
      && (n - i) % 0x1_0000_0000 == 0
      && if i in known then Stored(m, j, [Entry(number, E(i))], after)
         else Kept(m, Rec(number, Varint(if i < 0 then i + 0x1_0000_0000_0000_0000 else i)), after)
  }

  /** What bytes make of a message: its records, one after the other. */
  ghost predicate BytesMerged(schema: Schema, ty: TypeId, m: Message, bs: seq<byte>, after: Message)
    decreases |bs|, 1
  {
    if bs == [] then after == m
    else exists r, rest, next ::
      RecRead(bs, r, rest) && RecSize(r) < |bs| && |rest| < |bs| && RecMerged(schema, ty, m, r, next) &&
      BytesMerged(schema, ty, next, rest, after)
  }

  lemma {:induction false} BlankIsDefault(schema: Schema, ty: TypeId, m: Message)
    requires ty in schema
    ensures Blank(schema, ty, m) <==> m == Default(schema, ty)
  {
    if Blank(schema, ty, m) {
      assert m.slots == Default(schema, ty).slots;
    }
  }

  lemma {:induction false} OntoExisting(schema: Schema, s: Slot, number: nat, ty: TypeId, m: Message)
    requires ty in schema
    ensures Onto(schema, s, number, ty, m) <==> m == Existing(schema, s, number, ty)
  {
    BlankIsDefault(schema, ty, m);
  }

  lemma {:induction false} StoredAll(schema: Schema, ty: TypeId, m: Message, j: nat, es: seq<Entry>, after: Message)
    requires Typed(schema, ty, m) && j < |m.slots| && m.slots[j].Many? && EntriesTyped(schema, schema[ty], j, es)
    ensures Stored(m, j, es, after) <==> after == StoreAll(schema, ty, m, j, es)
  {
    if Stored(m, j, es, after) {
      assert after.slots == StoreAll(schema, ty, m, j, es).slots;
    }
  }

  lemma {:induction false} StoredOne(schema: Schema, ty: TypeId, m: Message, j: nat, e: Entry, after: Message)
    requires Typed(schema, ty, m) && j < |m.slots| && EntryTyped(schema, schema[ty], j, e)
    ensures Stored(m, j, [e], after) <==> after == Store(schema, ty, m, j, e)
  {
    if m.slots[j].Many? {
      StoredAll(schema, ty, m, j, [e], after);
    } else if Stored(m, j, [e], after) {
      assert after.slots == Store(schema, ty, m, j, e).slots;
    }
  }

  lemma {:induction false} EnumMerges(schema: Schema, ty: TypeId, m: Message, r: Rec, after: Message)
    requires SchemaOk(schema) && Typed(schema, ty, m) && RecOk(r)
    requires r.number in schema[ty].fields && schema[ty].fields[r.number].kind.Enum? && r.data.Varint?
    ensures var FieldType(j, kind) := schema[ty].fields[r.number];
            MergeRec(schema, ty, m, r) == Some(after) <==> EnumMerged(m, j, r.number, kind.known, r.data.n, after)
  {
    var FieldType(j, kind) := schema[ty].fields[r.number];
    var raw := ToInt32(r.data.n);
    LowBits(r.data.n, raw);
    if raw in kind.known {
      StoredOne(schema, ty, m, j, Entry(r.number, E(raw)), after);
    }
    assert E(raw).i == raw;
    if EnumMerged(m, j, r.number, kind.known, r.data.n, after) {
      var i: int32 :| && (r.data.n - i) % 0x1_0000_0000 == 0
                      && if i in kind.known then Stored(m, j, [Entry(r.number, E(i))], after)
                         else Kept(m, Rec(r.number, Varint(if i < 0 then i + 0x1_0000_0000_0000_0000 else i)), after);
      LowBits(r.data.n, i);
    }
  }

  lemma {:induction false} ScalarMerges(schema: Schema, ty: TypeId, m: Message, r: Rec, after: Message)
    requires SchemaOk(schema) && Typed(schema, ty, m) && RecOk(r) && r.number in schema[ty].fields
    requires var kind := schema[ty].fields[r.number].kind; !kind.Enum? && !kind.Submessage?
    ensures MergeRec(schema, ty, m, r) == Some(after) <==> RecMerged(schema, ty, m, r, after)
  {
    var FieldType(j, kind) := schema[ty].fields[r.number];
    assert SlotTyped(schema, schema[ty], j, m.slots[j]);
    if schema[ty].repeated[j] && r.data.Len? && !kind.Text? {
      if MergeRec(schema, ty, m, r) == Some(after) {
        var es := Unpack(r.number, kind, r.data.bytes).value;
        UnpackTyped(schema, schema[ty], r.number, r.data.bytes);
        RunGives(r.number, kind, r.data.bytes);
        StoredAll(schema, ty, m, j, es, after);
      }
      if RecMerged(schema, ty, m, r, after) {
        var es :| RunRead(r.number, kind, r.data.bytes, es) && Stored(m, j, es, after);
        RunTaken(r.number, kind, r.data.bytes, es);
        UnpackTyped(schema, schema[ty], r.number, r.data.bytes);
        StoredAll(schema, ty, m, j, es, after);
      }
    } else {
      if MergeRec(schema, ty, m, r) == Some(after) {
        var v := DecodeScalar(kind, r.data).value;
        ScalarReads(kind, r.data, v);
        StoredOne(schema, ty, m, j, Entry(r.number, v), after);
      }
      if RecMerged(schema, ty, m, r, after) {
        var v :| ScalarRead(kind, r.data, v) && Stored(m, j, [Entry(r.number, v)], after);
        ScalarReads(kind, r.data, v);
        StoredOne(schema, ty, m, j, Entry(r.number, v), after);
      }
    }
  }

  lemma {:induction false} SubmessageMerges(schema: Schema, ty: TypeId, m: Message, r: Rec, after: Message)
    requires SchemaOk(schema) && Typed(schema, ty, m) && RecOk(r) && r.data.Len?
    requires r.number in schema[ty].fields && schema[ty].fields[r.number].kind.Submessage?
    ensures MergeRec(schema, ty, m, r) == Some(after) <==> RecMerged(schema, ty, m, r, after)
    decreases RecSize(r), 2
  {
    var FieldType(j, kind) := schema[ty].fields[r.number];
    assert SlotTyped(schema, schema[ty], j, m.slots[j]);
    ExistingTyped(schema, schema[ty], j, m.slots[j], r.number);
    var held := Existing(schema, m.slots[j], r.number, kind.ty);
    OntoExisting(schema, m.slots[j], r.number, kind.ty, held);
    if MergeRec(schema, ty, m, r) == Some(after) {
      var v := MergeBytes(schema, kind.ty, held, r.data.bytes).value;
      BytesMerges(schema, kind.ty, held, r.data.bytes, v);
      StoredOne(schema, ty, m, j, Entry(r.number, M(v)), after);
    }
    if RecMerged(schema, ty, m, r, after) {
      var was, v :| Onto(schema, m.slots[j], r.number, kind.ty, was)
                    && BytesMerged(schema, kind.ty, was, r.data.bytes, v)
                    && Stored(m, j, [Entry(r.number, M(v))], after);
      OntoExisting(schema, m.slots[j], r.number, kind.ty, was);
      BytesMerges(schema, kind.ty, held, r.data.bytes, v);
      StoredOne(schema, ty, m, j, Entry(r.number, M(v)), after);
    }
  }

  /** Merging one record, exactly. */
  lemma {:induction false} RecMerges(schema: Schema, ty: TypeId, m: Message, r: Rec, after: Message)
    requires SchemaOk(schema) && Typed(schema, ty, m) && RecOk(r)
    ensures MergeRec(schema, ty, m, r) == Some(after) <==> RecMerged(schema, ty, m, r, after)
    decreases RecSize(r), 3
  {
    if r.number in schema[ty].fields {
      var FieldType(j, kind) := schema[ty].fields[r.number];
      if kind.Submessage? {
        if r.data.Len? {
          SubmessageMerges(schema, ty, m, r, after);
        }
      } else if kind.Enum? {
        if r.data.Varint? {
          EnumMerges(schema, ty, m, r, after);
        }
      } else {
        ScalarMerges(schema, ty, m, r, after);
      }
    }
  }

  lemma {:induction false} FirstRec(schema: Schema, ty: TypeId, m: Message, bs: seq<byte>, after: Message)
    returns (r: Rec, rest: seq<byte>, next: Message)
    requires bs != [] && BytesMerged(schema, ty, m, bs, after)
    ensures RecRead(bs, r, rest) && RecSize(r) < |bs| && |rest| < |bs|
    ensures RecMerged(schema, ty, m, r, next) && BytesMerged(schema, ty, next, rest, after)
  {
    r, rest, next :| RecRead(bs, r, rest) && RecSize(r) < |bs| && |rest| < |bs| &&
                     RecMerged(schema, ty, m, r, next) && BytesMerged(schema, ty, next, rest, after);
  }

  /** Decoding bytes onto a message, exactly. */
  lemma {:induction false} BytesMerges(schema: Schema, ty: TypeId, m: Message, bs: seq<byte>, after: Message)
    requires SchemaOk(schema) && Typed(schema, ty, m)
    ensures MergeBytes(schema, ty, m, bs) == Some(after) <==> BytesMerged(schema, ty, m, bs, after)
    decreases |bs|, 1
  {
    if bs != [] {
      if MergeBytes(schema, ty, m, bs) == Some(after) {
        var (r, rest) := ParseRec(bs).value;
        var next := MergeRec(schema, ty, m, r).value;
        RecReads(bs, r, rest);
        RecMerges(schema, ty, m, r, next);
        BytesMerges(schema, ty, next, rest, after);
      }
      if BytesMerged(schema, ty, m, bs, after) {
        var r, rest, next := FirstRec(schema, ty, m, bs, after);
        RecReads(bs, r, rest);
        RecMerges(schema, ty, m, r, next);
        BytesMerges(schema, ty, next, rest, after);
      }
    }
  }

  /** The message that bytes say, read onto one with nothing in it. */
  ghost predicate Says(schema: Schema, ty: TypeId, bs: seq<byte>, m: Message) {
    exists blank :: Blank(schema, ty, blank) && BytesMerged(schema, ty, blank, bs, m)
  }

  /** What decodes, and to what. */
  lemma {:induction false} DecodesExactly(schema: Schema, ty: TypeId, bs: seq<byte>, m: Message)
    requires SchemaOk(schema) && ty in schema
    ensures Decode(schema, ty, bs) == Some(m) <==> Says(schema, ty, bs, m)
  {
    BlankIsDefault(schema, ty, Default(schema, ty));
    BytesMerges(schema, ty, Default(schema, ty), bs, m);
    if Says(schema, ty, bs, m) {
      var blank :| Blank(schema, ty, blank) && BytesMerged(schema, ty, blank, bs, m);
      BlankIsDefault(schema, ty, blank);
    }
  }
}
