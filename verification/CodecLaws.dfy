/**
 What the codec is for: decoding undoes encoding, and decoding one encoding
 after another merges the messages, for every table of message types.
 */
module CodecLaws {
  import opened Wrappers
  import opened Wire
  import opened Codec

  // ---------------------------------------------------- merging two messages

  /**
   The merge of two messages of one type: repeated fields append, scalars take
   the last, submessages merge, a oneof merges when both hold the same message
   case and is replaced otherwise, and unknown fields append.
   */
  function Merge(a: Message, b: Message): (m: Message)
    requires |a.slots| == |b.slots|
    ensures |m.slots| == |b.slots|
    decreases b, 3
  {
    Message(MergeSlots(a.slots, b.slots), a.unknown + b.unknown)
  }

  function MergeSlots(a: seq<Slot>, b: seq<Slot>): (s: seq<Slot>)
    requires |a| == |b|
    ensures |s| == |b|
    decreases b, 2
  {
    if b == [] then [] else [MergeSlot(a[0], b[0])] + MergeSlots(a[1..], b[1..])
  }

  function MergeSlot(a: Slot, b: Slot): Slot
    decreases b, 1
  {
    match (a, b)
    case (Many(x), Many(y)) => Many(x + y)
    case (_, One(None)) => a
    case (_, One(Some(e))) => One(Some(MergeEntry(a, e)))
    case (_, Many(_)) => b
  }

  /** The entry a singular slot ends up with. */
  function MergeEntry(a: Slot, e: Entry): Entry
    decreases e, 0
  {
    match (a, e.val)
    case (One(Some(Entry(n, M(x)))), M(y)) =>
      if n == e.number && |x.slots| == |y.slots| then Entry(n, M(Merge(x, y))) else e
    case _ => e
  }

  // ----------------------------------------------------------------- records

  function MergeRecs(schema: Schema, ty: TypeId, m: Message, rs: seq<Rec>): (res: Option<Message>)
    requires SchemaOk(schema) && Typed(schema, ty, m) && RecsOk(rs)
    ensures res.Some? ==> Typed(schema, ty, res.value)
    decreases |rs|
  {
    if rs == [] then Some(m) else
    var m1 :- MergeRec(schema, ty, m, rs[0]);
    MergeRecs(schema, ty, m1, rs[1..])
  }

  lemma {:induction false} MergeRecsAppend(schema: Schema, ty: TypeId, m: Message, a: seq<Rec>, b: seq<Rec>)
    requires SchemaOk(schema) && Typed(schema, ty, m) && RecsOk(a) && RecsOk(b)
    requires MergeRecs(schema, ty, m, a).Some?
    ensures RecsOk(a + b)
    ensures MergeRecs(schema, ty, m, a + b) == MergeRecs(schema, ty, MergeRecs(schema, ty, m, a).value, b)
    decreases |a|
  {
    if a == [] {
      assert a + b == b;
    } else {
      assert (a + b)[1..] == a[1..] + b;
      MergeRecsAppend(schema, ty, MergeRec(schema, ty, m, a[0]).value, a[1..], b);
    }
  }

  lemma {:induction false} BytesAreRecs(schema: Schema, ty: TypeId, m: Message, rs: seq<Rec>)
    requires SchemaOk(schema) && Typed(schema, ty, m) && RecsOk(rs) && |EncodeRecs(rs)| < U64_LIMIT
    ensures MergeBytes(schema, ty, m, EncodeRecs(rs)) == MergeRecs(schema, ty, m, rs)
    decreases |rs|
  {
    if rs != [] {
      RecRoundTrip(rs[0], EncodeRecs(rs[1..]));
      if MergeRec(schema, ty, m, rs[0]).Some? {
        BytesAreRecs(schema, ty, MergeRec(schema, ty, m, rs[0]).value, rs[1..]);
      }
    }
  }

  // --------------------------------------- merging the fields of an encoding

  function WithSlot(m: Message, j: nat, s: Slot): Message
    requires j < |m.slots|
  {
    m.(slots := m.slots[j := s])
  }

  function Append(m: Message, j: nat, es: seq<Entry>): Message
    requires j < |m.slots| && m.slots[j].Many?
  {
    WithSlot(m, j, Many(m.slots[j].entries + es))
  }

  lemma {:induction false} AppendTwice(m: Message, j: nat, a: seq<Entry>, b: seq<Entry>)
    requires j < |m.slots| && m.slots[j].Many?
    ensures Append(m, j, []) == m
    ensures Append(Append(m, j, a), j, b) == Append(m, j, a + b)
  {
    assert m.slots[j].entries + [] == m.slots[j].entries;
    assert m.slots[j := m.slots[j]] == m.slots;
    assert m.slots[j].entries + a + b == m.slots[j].entries + (a + b);
    var x, y := Many(m.slots[j].entries + a), Many(m.slots[j].entries + (a + b));
    assert m.slots[j := x][j := y] == m.slots[j := y];
  }

  lemma {:induction false} MergeDefault(schema: Schema, ty: TypeId, m: Message)
    requires Typed(schema, ty, m)
    ensures Merge(Default(schema, ty), m) == m
  {
    DefaultSlots(Default(schema, ty).slots, schema[ty].repeated, m.slots);
    assert [] + m.unknown == m.unknown;
  }

  lemma {:induction false} DefaultSlots(a: seq<Slot>, repeated: seq<bool>, b: seq<Slot>)
    requires |a| == |repeated| == |b|
    requires forall i :: 0 <= i < |a| ==> a[i] == EmptySlot(repeated[i]) && b[i].Many? == repeated[i]
    ensures MergeSlots(a, b) == b
  {
    if b != [] {
      DefaultSlots(a[1..], repeated[1..], b[1..]);
      assert a[0] == EmptySlot(repeated[0]) && b[0].Many? == repeated[0];
      assert MergeSlot(a[0], b[0]) == b[0] by {
        if b[0].Many? { assert [] + b[0].entries == b[0].entries; }
      }
    }
  }

  ghost predicate Small(m: Message) {
    |Encode(m)| < U64_LIMIT
  }

  lemma {:induction false} IntRoundTrip(i: int64)
    ensures ToInt64(FromInt(i)) == i
    ensures -INT32_LIMIT <= i < INT32_LIMIT ==> ToInt32(FromInt(i)) == i
  {
    assert U64_LIMIT == 2 * INT32_LIMIT * (2 * INT32_LIMIT);
  }

  lemma {:induction false} ScalarRoundTrip(schema: Schema, kind: Kind, v: Val)
    requires !kind.Enum? && !kind.Submessage? && ValTyped(schema, kind, v)
    ensures DecodeScalar(kind, Payload(v)) == Some(v)
    ensures Packable(kind) ==> Payload(v).Varint?
  {
    match v
    case I32(i) => IntRoundTrip(i);
    case I64(i) => IntRoundTrip(i);
    case _ =>
  }

  /** What one more entry does to slot `j`. */
  function Absorb(m: Message, j: nat, e: Entry): Message
    requires j < |m.slots|
  {
    if m.slots[j].Many? then Append(m, j, [e]) else WithSlot(m, j, One(Some(MergeEntry(m.slots[j], e))))
  }

  lemma {:induction false} ScalarMerges(schema: Schema, ty: TypeId, m: Message, j: nat, number: nat, kind: Kind, v: Val)
    requires SchemaOk(schema) && Typed(schema, ty, m) && NumberOk(number)
    requires number in schema[ty].fields && schema[ty].fields[number] == FieldType(j, kind) && ValTyped(schema, kind, v)
    requires !kind.Submessage?
    ensures MergeRec(schema, ty, m, Rec(number, Payload(v))) == Some(Absorb(m, j, Entry(number, v)))
  {
    if kind.Enum? {
      IntRoundTrip(v.i);
    } else {
      ScalarRoundTrip(schema, kind, v);
    }
  }

  lemma {:induction false} MergedEntry(schema: Schema, t: Table, j: nat, s: Slot, number: nat, sub: TypeId, x: Message)
    requires SlotTyped(schema, t, j, s) && Typed(schema, sub, x)
    requires number in t.fields && t.fields[number] == FieldType(j, Submessage(sub))
    ensures |Existing(schema, s, number, sub).slots| == |x.slots|
    ensures Entry(number, M(Merge(Existing(schema, s, number, sub), x)))
         == if s.Many? then Entry(number, M(x)) else MergeEntry(s, Entry(number, M(x)))
  {
    MergeDefault(schema, sub, x);
    ExistingTyped(schema, t, j, s, number);
  }

  lemma {:induction false} SubmessageMerges(schema: Schema, ty: TypeId, m: Message, j: nat, number: nat, sub: TypeId,
                                            x: Message)
    requires SchemaOk(schema) && Typed(schema, ty, m) && NumberOk(number)
    requires number in schema[ty].fields && schema[ty].fields[number] == FieldType(j, Submessage(sub))
    requires Typed(schema, sub, x)
    requires SlotTyped(schema, schema[ty], j, m.slots[j])
    requires Typed(schema, sub, Existing(schema, m.slots[j], number, sub))
    requires MergeBytes(schema, sub, Existing(schema, m.slots[j], number, sub), Encode(x))
          == Some(Merge(Existing(schema, m.slots[j], number, sub), x))
    ensures MergeRec(schema, ty, m, Rec(number, Len(Encode(x)))) == Some(Absorb(m, j, Entry(number, M(x))))
  {
    MergedEntry(schema, schema[ty], j, m.slots[j], number, sub, x);
  }

  /** Merging one written entry does to its slot what `MergeSlot` says. */
  lemma {:induction false} EntryMerges(schema: Schema, ty: TypeId, m: Message, j: nat, e: Entry)
    requires SchemaOk(schema) && Typed(schema, ty, m) && j < |m.slots|
    requires EntryTyped(schema, schema[ty], j, e)
    requires |EncodeRec(EntryRec(e))| < U64_LIMIT
    ensures RecOk(EntryRec(e))
    ensures MergeRec(schema, ty, m, EntryRec(e)) == Some(Absorb(m, j, e))
    decreases e, 0
  {
    var kind := schema[ty].fields[e.number].kind;
    if kind.Submessage? {
      assert SlotTyped(schema, schema[ty], j, m.slots[j]);
      ExistingTyped(schema, schema[ty], j, m.slots[j], e.number);
      var into := Existing(schema, m.slots[j], e.number, kind.ty);
      MergeInto(schema, kind.ty, into, e.val.message);
      SubmessageMerges(schema, ty, m, j, e.number, kind.ty, e.val.message);
    } else {
      ScalarMerges(schema, ty, m, j, e.number, kind, e.val);
    }
  }

  lemma {:induction false} EntriesMerge(schema: Schema, ty: TypeId, m: Message, j: nat, es: seq<Entry>)
    requires SchemaOk(schema) && Typed(schema, ty, m) && j < |m.slots| && m.slots[j].Many?
    requires EntriesTyped(schema, schema[ty], j, es)
    requires |EncodeRecs(EntriesRecs(es))| < U64_LIMIT
    ensures RecsOk(EntriesRecs(es))
    ensures MergeRecs(schema, ty, m, EntriesRecs(es))
         == Some(Append(m, j, es))
    decreases es, 1
  {
    AppendTwice(m, j, es[..if es == [] then 0 else 1], es[if es == [] then 0 else 1..]);
    if es != [] {
      EntryMerges(schema, ty, m, j, es[0]);
      EntriesMerge(schema, ty, Append(m, j, [es[0]]), j, es[1..]);
      assert [es[0]] + es[1..] == es;
    }
  }

  lemma {:induction false} SlotMerges(schema: Schema, ty: TypeId, m: Message, j: nat, s: Slot)
    requires SchemaOk(schema) && Typed(schema, ty, m) && j < |m.slots|
    requires SlotTyped(schema, schema[ty], j, s)
    requires |EncodeRecs(SlotRecs(s))| < U64_LIMIT
    ensures RecsOk(SlotRecs(s))
    ensures MergeRecs(schema, ty, m, SlotRecs(s))
         == Some(WithSlot(m, j, MergeSlot(m.slots[j], s)))
    decreases s, 2
  {
    assert SlotTyped(schema, schema[ty], j, m.slots[j]);
    match s
    case One(None) => assert m.slots[j := m.slots[j]] == m.slots;
    case One(Some(e)) => EntryMerges(schema, ty, m, j, e);
    case Many(es) => EntriesMerge(schema, ty, m, j, es);
  }

  /** The slots of `b` from `j` on, merged into those of `m`. */
  function Merged(m: Message, j: nat, b: Message): Message
    requires j <= |b.slots| == |m.slots|
  {
    m.(slots := m.slots[..j] + MergeSlots(m.slots[j..], b.slots[j..]))
  }

  lemma {:induction false} MergedStep(m: Message, j: nat, b: Message)
    requires j < |b.slots| == |m.slots|
    ensures Merged(WithSlot(m, j, MergeSlot(m.slots[j], b.slots[j])), j + 1, b) == Merged(m, j, b)
  {
    var m1 := WithSlot(m, j, MergeSlot(m.slots[j], b.slots[j]));
    assert m.slots[j..][1..] == m.slots[j + 1..] == m1.slots[j + 1..];
    assert b.slots[j..][1..] == b.slots[j + 1..];
    assert m1.slots[..j + 1] == m.slots[..j] + [MergeSlot(m.slots[j], b.slots[j])];
  }

  lemma {:induction false} RecsFrom(b: Message, j: nat)
    requires j < |b.slots|
    ensures SlotsRecs(b.slots[j..]) == SlotRecs(b.slots[j]) + SlotsRecs(b.slots[j + 1..])
    ensures EncodeRecs(SlotsRecs(b.slots[j..]))
         == EncodeRecs(SlotRecs(b.slots[j])) + EncodeRecs(SlotsRecs(b.slots[j + 1..]))
  {
    assert b.slots[j..][1..] == b.slots[j + 1..];
    EncodeRecsAppend(SlotRecs(b.slots[j]), SlotsRecs(b.slots[j + 1..]));
  }

  /** The slots before `j` are done; the rest are about to be merged. */
  lemma {:induction false} SlotsMerge(schema: Schema, ty: TypeId, m: Message, j: nat, b: Message)
    requires SchemaOk(schema) && Typed(schema, ty, m) && Typed(schema, ty, b) && j <= |b.slots|
    requires |EncodeRecs(SlotsRecs(b.slots[j..]))| < U64_LIMIT
    ensures RecsOk(SlotsRecs(b.slots[j..]))
    ensures MergeRecs(schema, ty, m, SlotsRecs(b.slots[j..])) == Some(Merged(m, j, b))
    decreases b, 3, |b.slots| - j
  {
    if j == |b.slots| {
      assert m.slots[..j] + [] == m.slots;
    } else {
      RecsFrom(b, j);
      SlotMerges(schema, ty, m, j, b.slots[j]);
      SlotsMerge(schema, ty, WithSlot(m, j, MergeSlot(m.slots[j], b.slots[j])), j + 1, b);
      MergeRecsAppend(schema, ty, m, SlotRecs(b.slots[j]), SlotsRecs(b.slots[j + 1..]));
      MergedStep(m, j, b);
    }
  }

  lemma {:induction false} UnknownMerges(schema: Schema, ty: TypeId, m: Message, rs: seq<Rec>)
    requires SchemaOk(schema) && Typed(schema, ty, m)
    requires forall i :: 0 <= i < |rs| ==> UnknownOk(schema[ty], rs[i])
    ensures RecsOk(rs)
    ensures MergeRecs(schema, ty, m, rs) == Some(m.(unknown := m.unknown + rs))
    decreases |rs|
  {
    if rs == [] {
      assert m.unknown + rs == m.unknown;
    } else {
      assert UnknownOk(schema[ty], rs[0]);
      assert MergeRec(schema, ty, m, rs[0]) == Some(m.(unknown := m.unknown + [rs[0]]));
      UnknownMerges(schema, ty, m.(unknown := m.unknown + [rs[0]]), rs[1..]);
      assert m.unknown + [rs[0]] + rs[1..] == m.unknown + rs;
    }
  }

  /** Decoding an encoding into a message merges the two. */
  lemma {:induction false} MergeInto(schema: Schema, ty: TypeId, a: Message, b: Message)
    requires SchemaOk(schema) && Typed(schema, ty, a) && Typed(schema, ty, b) && Small(b)
    ensures MergeBytes(schema, ty, a, Encode(b)) == Some(Merge(a, b))
    decreases b, 4
  {
    EncodeRecsAppend(SlotsRecs(b.slots), b.unknown);
    assert Encode(b) == EncodeRecs(SlotsRecs(b.slots) + b.unknown);
    assert b.slots[0..] == b.slots;
    SlotsMerge(schema, ty, a, 0, b);
    MergedIsMerge(schema, ty, a, b);
  }

  lemma {:induction false} MergedIsMerge(schema: Schema, ty: TypeId, a: Message, b: Message)
    requires SchemaOk(schema) && Typed(schema, ty, a) && Typed(schema, ty, b) && Small(b)
    requires RecsOk(SlotsRecs(b.slots))
    requires MergeRecs(schema, ty, a, SlotsRecs(b.slots)) == Some(Merged(a, 0, b))
    ensures MergeBytes(schema, ty, a, Encode(b)) == Some(Merge(a, b))
  {
    UnknownMerges(schema, ty, Merged(a, 0, b), b.unknown);
    MergeRecsAppend(schema, ty, a, SlotsRecs(b.slots), b.unknown);
    BytesAreRecs(schema, ty, a, Fields(b));
    assert a.slots[0..] == a.slots && b.slots[0..] == b.slots;
    assert a.slots[..0] + MergeSlots(a.slots, b.slots) == MergeSlots(a.slots, b.slots);
  }

  // ------------------------------------------------------------ main results

  lemma {:induction false} RoundTrip(schema: Schema, ty: TypeId, m: Message)
    requires SchemaOk(schema) && Typed(schema, ty, m) && Small(m)
    ensures Decode(schema, ty, Encode(m)) == Some(m)
  {
    MergeInto(schema, ty, Default(schema, ty), m);
    MergeDefault(schema, ty, m);
  }

  /** Re-encoding whatever was decoded, canonical or not, loses nothing. */
  lemma {:induction false} DecodedReencodes(schema: Schema, ty: TypeId, bs: seq<byte>)
    requires SchemaOk(schema) && ty in schema && Decode(schema, ty, bs).Some?
    requires Small(Decode(schema, ty, bs).value)
    ensures Decode(schema, ty, Encode(Decode(schema, ty, bs).value)) == Decode(schema, ty, bs)
  {
    RoundTrip(schema, ty, Decode(schema, ty, bs).value);
  }

  /** Decoding is incremental: the second half is merged into the first. */
  lemma {:induction false} MergeBytesAppend(schema: Schema, ty: TypeId, m: Message, a: seq<byte>, b: seq<byte>)
    requires SchemaOk(schema) && Typed(schema, ty, m) && MergeBytes(schema, ty, m, a).Some?
    ensures MergeBytes(schema, ty, m, a + b)
         == MergeBytes(schema, ty, MergeBytes(schema, ty, m, a).value, b)
    decreases |a|
  {
    if a == [] {
      assert a + b == b;
    } else {
      RecPrefix(a, b);
      var (r, rest) := ParseRec(a).value;
      MergeBytesAppend(schema, ty, MergeRec(schema, ty, m, r).value, rest, b);
    }
  }

  /** Any bytes followed by an encoding decode to the merge of the two. */
  lemma {:induction false} ConcatenationMerges(schema: Schema, ty: TypeId, bs: seq<byte>, m: Message)
    requires SchemaOk(schema) && ty in schema && Decode(schema, ty, bs).Some?
    requires Typed(schema, ty, m) && Small(m)
    ensures Decode(schema, ty, bs + Encode(m)) == Some(Merge(Decode(schema, ty, bs).value, m))
  {
    MergeBytesAppend(schema, ty, Default(schema, ty), bs, Encode(m));
    MergeInto(schema, ty, Decode(schema, ty, bs).value, m);
  }

  // -------------------------------------------------------------- one record

  /** A record changes one slot, to which a repeated field only appends, or is kept as one more unknown field. */
  lemma {:induction false} RecordTouches(schema: Schema, ty: TypeId, m: Message, r: Rec)
    requires SchemaOk(schema) && Typed(schema, ty, m) && RecOk(r) && MergeRec(schema, ty, m, r).Some?
    ensures var after := MergeRec(schema, ty, m, r).value;
            if after.unknown != m.unknown then
              && after.slots == m.slots && |after.unknown| == |m.unknown| + 1
              && after.unknown[..|m.unknown|] == m.unknown && after.unknown[|m.unknown|].number == r.number
            else
              && r.number in schema[ty].fields && |after.slots| == |m.slots|
              && forall k :: 0 <= k < |m.slots| ==>
                   if k != schema[ty].fields[r.number].slot then after.slots[k] == m.slots[k]
                   else if m.slots[k].Many? then
                     after.slots[k].Many? && m.slots[k].entries <= after.slots[k].entries
                   else
                     after.slots[k].One? && after.slots[k].entry.Some?
                     && after.slots[k].entry.value.number == r.number
  {
    if r.number in schema[ty].fields {
      var FieldType(j, kind) := schema[ty].fields[r.number];
      assert SlotTyped(schema, schema[ty], j, m.slots[j]);
    }
  }

  // ------------------------------------------------------------ packed fields

  /** A repeated scalar field on the wire: a packed run, or one value. */
  datatype Chunk = Run(values: seq<Entry>) | Alone(value: Entry)

  function PackedBytes(es: seq<Entry>): seq<byte> {
    if es == [] then []
    else
      (match Payload(es[0].val) case Varint(n) => EncodeVarint(n) case _ => []) + PackedBytes(es[1..])
  }

  function ChunkRec(number: nat, c: Chunk): Rec {
    match c
    case Run(values) => Rec(number, Len(PackedBytes(values)))
    case Alone(value) => EntryRec(value)
  }

  function ChunkRecs(number: nat, cs: seq<Chunk>): seq<Rec> {
    if cs == [] then [] else [ChunkRec(number, cs[0])] + ChunkRecs(number, cs[1..])
  }

  function ChunkValues(c: Chunk): seq<Entry> {
    if c.Run? then c.values else [c.value]
  }

  function Values(cs: seq<Chunk>): seq<Entry> {
    if cs == [] then []
    else ChunkValues(cs[0]) + Values(cs[1..])
  }

  /** The values are of the repeated field `number`. */
  ghost predicate ValuesOk(schema: Schema, t: Table, number: nat, es: seq<Entry>)
    requires number in t.fields
  {
    forall i :: 0 <= i < |es| ==> es[i].number == number && ValTyped(schema, t.fields[number].kind, es[i].val)
  }

  lemma {:induction false} UnpackPacked(schema: Schema, t: Table, number: nat, es: seq<Entry>)
    requires number in t.fields && Packable(t.fields[number].kind) && ValuesOk(schema, t, number, es)
    ensures Unpack(number, t.fields[number].kind, PackedBytes(es)) == Some(es)
  {
    if es != [] {
      var v := es[0].val;
      ScalarRoundTrip(schema, t.fields[number].kind, v);
      VarintRoundTrip(Payload(v).n, PackedBytes(es[1..]));
      UnpackPacked(schema, t, number, es[1..]);
      assert es == [Entry(number, v)] + es[1..];
    }
  }

  lemma {:induction false} ChunkAppends(schema: Schema, ty: TypeId, number: nat, m: Message, c: Chunk)
    requires SchemaOk(schema) && Typed(schema, ty, m) && number in schema[ty].fields
    requires Packable(schema[ty].fields[number].kind) && m.slots[schema[ty].fields[number].slot].Many?
    requires ValuesOk(schema, schema[ty], number, ChunkValues(c))
    ensures RecOk(ChunkRec(number, c))
    ensures MergeRec(schema, ty, m, ChunkRec(number, c))
         == Some(Append(m, schema[ty].fields[number].slot, ChunkValues(c)))
  {
    var FieldType(j, kind) := schema[ty].fields[number];
    assert SlotTyped(schema, schema[ty], j, m.slots[j]);
    match c
    case Run(values) => UnpackPacked(schema, schema[ty], number, values);
    case Alone(value) =>
      assert ChunkValues(c)[0] == value;
      ScalarMerges(schema, ty, m, j, number, kind, value.val);
  }

  /** Packed runs, single values and any mix of them append the same values. */
  lemma {:induction false} MixedRunsAppend(schema: Schema, ty: TypeId, number: nat, m: Message, cs: seq<Chunk>)
    requires SchemaOk(schema) && Typed(schema, ty, m) && number in schema[ty].fields
    requires Packable(schema[ty].fields[number].kind) && schema[ty].repeated[schema[ty].fields[number].slot]
    requires ValuesOk(schema, schema[ty], number, Values(cs))
    ensures m.slots[schema[ty].fields[number].slot].Many?
    ensures RecsOk(ChunkRecs(number, cs))
    ensures MergeRecs(schema, ty, m, ChunkRecs(number, cs))
         == Some(Append(m, schema[ty].fields[number].slot, Values(cs)))
    decreases |cs|
  {
    var j := schema[ty].fields[number].slot;
    assert SlotTyped(schema, schema[ty], j, m.slots[j]);
    if cs == [] {
      AppendTwice(m, j, [], []);
    } else {
      var first, more := ChunkValues(cs[0]), Values(cs[1..]);
      assert forall i :: 0 <= i < |first| ==> first[i] == Values(cs)[i];
      assert forall i :: 0 <= i < |more| ==> more[i] == Values(cs)[|first| + i];
      ChunkAppends(schema, ty, number, m, cs[0]);
      MixedRunsAppend(schema, ty, number, Append(m, j, first), cs[1..]);
      AppendTwice(m, j, first, more);
    }
  }

  /** On the wire: the bytes of any mix decode to the values, in order. */
  lemma {:induction false} PackedAndUnpackedAgree(schema: Schema, ty: TypeId, number: nat, cs: seq<Chunk>)
    requires SchemaOk(schema) && ty in schema && number in schema[ty].fields
    requires Packable(schema[ty].fields[number].kind) && schema[ty].repeated[schema[ty].fields[number].slot]
    requires ValuesOk(schema, schema[ty], number, Values(cs))
    requires |EncodeRecs(ChunkRecs(number, cs))| < U64_LIMIT
    ensures var j := schema[ty].fields[number].slot;
            Decode(schema, ty, EncodeRecs(ChunkRecs(number, cs)))
            == Some(WithSlot(Default(schema, ty), j, Many(Values(cs))))
  {
    var m, j := Default(schema, ty), schema[ty].fields[number].slot;
    MixedRunsAppend(schema, ty, number, m, cs);
    BytesAreRecs(schema, ty, m, ChunkRecs(number, cs));
    assert [] + Values(cs) == Values(cs);
  }

  /** Each value in a record of its own: the form the encoder writes. */
  function Singles(es: seq<Entry>): seq<Chunk> {
    if es == [] then [] else [Alone(es[0])] + Singles(es[1..])
  }

  lemma {:induction false} SinglesRecs(number: nat, es: seq<Entry>)
    ensures ChunkRecs(number, Singles(es)) == EntriesRecs(es)
  {
    if es != [] {
      SinglesRecs(number, es[1..]);
      assert Singles(es)[1..] == Singles(es[1..]);
    }
  }

  /** Slots that are empty but for one encode as that one. */
  lemma {:induction false} OnlySlotRecs(slots: seq<Slot>, j: nat)
    requires j < |slots| && forall i :: 0 <= i < |slots| && i != j ==> SlotRecs(slots[i]) == []
    ensures SlotsRecs(slots) == SlotRecs(slots[j])
  {
    if j > 0 {
      OnlySlotRecs(slots[1..], j - 1);
    } else {
      EmptySlotsRecs(slots[1..]);
    }
  }

  lemma {:induction false} EmptySlotsRecs(slots: seq<Slot>)
    requires forall s :: s in slots ==> SlotRecs(s) == []
    ensures SlotsRecs(slots) == []
  {
    if slots != [] {
      EmptySlotsRecs(slots[1..]);
    }
  }

  /** And what they decode to encodes as one record for each value, however they came. */
  lemma {:induction false} ReencodesUnpacked(schema: Schema, ty: TypeId, number: nat, cs: seq<Chunk>)
    requires SchemaOk(schema) && ty in schema && number in schema[ty].fields
    requires Packable(schema[ty].fields[number].kind) && schema[ty].repeated[schema[ty].fields[number].slot]
    requires ValuesOk(schema, schema[ty], number, Values(cs))
    requires |EncodeRecs(ChunkRecs(number, cs))| < U64_LIMIT
    ensures Decode(schema, ty, EncodeRecs(ChunkRecs(number, cs))).Some?
    ensures Encode(Decode(schema, ty, EncodeRecs(ChunkRecs(number, cs))).value)
         == EncodeRecs(ChunkRecs(number, Singles(Values(cs))))
  {
    var j := schema[ty].fields[number].slot;
    PackedAndUnpackedAgree(schema, ty, number, cs);
    var m := WithSlot(Default(schema, ty), j, Many(Values(cs)));
    OnlySlotRecs(m.slots, j);
    SinglesRecs(number, Values(cs));
    assert Fields(m) == ChunkRecs(number, Singles(Values(cs)));
  }
}
