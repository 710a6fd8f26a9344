/**
 The generated decoder, reading from a buffer. It is proved equal to the
 functional decoder of `Codec`, so what is proved there holds of it.
 */
module Decoder {
  import opened Wrappers
  import opened Wire
  import opened Codec
  import opened WireMerge

  /** A buffer being read; `bytes` is what remains. */
  class Buf {
    var bytes: seq<byte>

    constructor (bs: seq<byte>)
      ensures bytes == bs
    {
      bytes := bs;
    }

    method ReadVarint() returns (r: Option<u64>)
      modifies this
      ensures match DecodeVarint(old(bytes))
              case None => r.None?
              case Some((n, rest)) => r == Some(n) && bytes == rest
    {
      var value, scale: nat, i := 0, 1, 0;
      while i < 10 && bytes != [] && bytes[0] >= 128
        invariant 0 <= i <= 10 && value >= 0
        invariant match DecodeGroups(old(bytes), 10)
                  case None => DecodeGroups(bytes, 10 - i).None?
                  case Some((n, rest)) =>
                    && DecodeGroups(bytes, 10 - i).Some?
                    && DecodeGroups(bytes, 10 - i).value.1 == rest
                    && n == value + scale * DecodeGroups(bytes, 10 - i).value.0
        decreases 10 - i
      {
        if DecodeGroups(bytes[1..], 9 - i).Some? {
          Shift(value, scale, bytes[0] - 128, DecodeGroups(bytes[1..], 9 - i).value.0);
        }
        value := value + scale * (bytes[0] - 128);
        scale := scale * 128;
        bytes := bytes[1..];
        i := i + 1;
      }
      if i == 10 || bytes == [] {
        return None;
      }
      value := value + scale * bytes[0];
      bytes := bytes[1..];
      r := if value < U64_LIMIT then Some(value) else None;
    }

    method ReadTag() returns (r: Option<(nat, nat)>)
      modifies this
      ensures match DecodeTag(old(bytes))
              case None => r.None?
              case Some((number, wireType, rest)) => r == Some((number, wireType)) && bytes == rest
    {
      var key := ReadVarint();
      if key.None? || !NumberOk(key.value / 8) || key.value % 8 > FIXED32 {
        return None;
      }
      r := Some((key.value / 8, key.value % 8));
    }

    /** The bytes of a length-delimited payload. */
    method ReadBytes() returns (r: Option<seq<byte>>)
      modifies this
      ensures match ParseData(1, LEN, old(bytes))
              case None => r.None?
              case Some((data, rest)) => r == Some(data.bytes) && bytes == rest
    {
      var len := ReadVarint();
      if len.None? || |bytes| < len.value {
        return None;
      }
      r := Some(bytes[..len.value]);
      bytes := bytes[len.value..];
    }

    method ReadFixed(width: nat) returns (r: Option<seq<byte>>)
      modifies this
      ensures if |old(bytes)| < width then r.None?
              else r == Some(old(bytes)[..width]) && bytes == old(bytes)[width..]
    {
      if |bytes| < width {
        return None;
      }
      r := Some(bytes[..width]);
      bytes := bytes[width..];
    }

    /** An unknown field's payload, groups included. */
    method ReadUnknown(number: nat, wireType: nat) returns (r: Option<Data>)
      modifies this
      ensures match ParseData(number, wireType, old(bytes))
              case None => r.None?
              case Some((data, rest)) => r == Some(data) && bytes == rest
      decreases |bytes|, 1
    {
      if wireType == VARINT {
        var n := ReadVarint();
        r := if n.Some? then Some(Varint(n.value)) else None;
      } else if wireType == FIXED64 {
        var bits := ReadFixed(8);
        r := if bits.Some? then Some(Fixed64(bits.value)) else None;
      } else if wireType == LEN {
        var payload := ReadBytes();
        r := if payload.Some? then Some(Len(payload.value)) else None;
      } else if wireType == START_GROUP {
        var fields := ReadGroup(number);
        r := if fields.Some? then Some(Group(fields.value)) else None;
      } else if wireType == FIXED32 {
        var bits := ReadFixed(4);
        r := if bits.Some? then Some(Fixed32(bits.value)) else None;
      } else {
        r := None;
      }
    }

    /** The fields of a group, up to the end key of its own number. */
    method ReadGroup(number: nat) returns (r: Option<seq<Rec>>)
      modifies this
      ensures match ParseGroup(number, old(bytes))
              case None => r.None?
              case Some((fields, rest)) => r == Some(fields) && bytes == rest
      decreases |bytes|, 0
    {
      var fields: seq<Rec> := [];
      var tag := ReadTag();
      while tag.Some? && tag.value.1 != END_GROUP
        invariant tag.Some? ==> |bytes| < |old(bytes)|
        invariant match ParseGroup(number, old(bytes))
                  case None => Ended(number, tag, bytes).None?
                  case Some((all, rest)) =>
                    && Ended(number, tag, bytes).Some?
                    && all == fields + Ended(number, tag, bytes).value.0 && rest == Ended(number, tag, bytes).value.1
        decreases if tag.None? then 0 else |bytes| + 1
      {
        var data := ReadUnknown(tag.value.0, tag.value.1);
        if data.None? {
          return None;
        }
        ghost var more := ParseGroup(number, bytes);
        if more.Some? {
          assert fields + ([Rec(tag.value.0, data.value)] + more.value.0)
              == fields + [Rec(tag.value.0, data.value)] + more.value.0;
        }
        fields := fields + [Rec(tag.value.0, data.value)];
        tag := ReadTag();
      }
      assert fields + [] == fields;
      r := if tag.Some? && tag.value.0 == number then Some(fields) else None;
    }
  }

  /** What is left of a group once its next key is read. */
  ghost function Ended(number: nat, tag: Option<(nat, nat)>, bytes: seq<byte>): Option<(seq<Rec>, seq<byte>)> {
    var (key, wireType) :- tag;
    if wireType == END_GROUP then
      if key == number then Some(([], bytes)) else None
    else
      var (data, rest) :- ParseData(key, wireType, bytes);
      var (fields, rest1) :- ParseGroup(number, rest);
      Some(([Rec(key, data)] + fields, rest1))
  }

  lemma {:induction false} Shift(value: int, scale: int, low: int, high: int)
    ensures value + scale * (low + 128 * high) == value + scale * low + scale * 128 * high
  {
  }

  /** What `merge_field` must do after the key (`number`, `wireType`). */
  ghost predicate Merged(schema: Schema, ty: TypeId, m: Message, number: nat, wireType: nat,
                         before: seq<byte>, r: Option<Message>, after: seq<byte>)
    requires SchemaOk(schema) && Typed(schema, ty, m) && NumberOk(number)
  {
    match ParseData(number, wireType, before)
    case None => r.None?
    case Some((data, rest)) =>
      r == MergeRec(schema, ty, m, Rec(number, data)) && (r.Some? ==> after == rest)
  }

  /** Merges one field, whose key was just read, into a message. */
  method MergeField(schema: Schema, ty: TypeId, m: Message, number: nat, wireType: nat, buf: Buf)
    returns (r: Option<Message>)
    requires SchemaOk(schema) && Typed(schema, ty, m) && NumberOk(number) && wireType <= FIXED32
    modifies buf
    ensures Merged(schema, ty, m, number, wireType, old(buf.bytes), r, buf.bytes)
    decreases |buf.bytes|, 1
  {
    if number !in schema[ty].fields {
      var data := buf.ReadUnknown(number, wireType);
      if data.None? {
        return None;
      }
      return Some(m.(unknown := m.unknown + [Rec(number, data.value)]));
    }
    var FieldType(j, kind) := schema[ty].fields[number];
    assert SlotTyped(schema, schema[ty], j, m.slots[j]);
    if kind.Submessage? {
      if wireType != LEN {
        return None;
      }
      ExistingTyped(schema, schema[ty], j, m.slots[j], number);
      var sub := MergeLengthDelimited(schema, kind.ty, Existing(schema, m.slots[j], number, kind.ty), buf);
      if sub.None? {
        return None;
      }
      return Some(Store(schema, ty, m, j, Entry(number, M(sub.value))));
    } else if schema[ty].repeated[j] && Packable(kind) && wireType == LEN {
      var run := ReadPacked(number, kind, buf);
      if run.None? {
        return None;
      }
      UnpackTyped(schema, schema[ty], number, ParseData(1, LEN, old(buf.bytes)).value.0.bytes);
      return Some(StoreAll(schema, ty, m, j, run.value));
    } else {
      r := MergeScalar(schema, ty, m, j, number, kind, wireType, buf);
    }
  }

  /** A field with a scalar or enum value. The wire type is checked first. */
  method MergeScalar(schema: Schema, ty: TypeId, m: Message, j: nat, number: nat, kind: Kind, wireType: nat, buf: Buf)
    returns (r: Option<Message>)
    requires SchemaOk(schema) && Typed(schema, ty, m) && NumberOk(number) && wireType <= FIXED32
    requires number in schema[ty].fields && schema[ty].fields[number] == FieldType(j, kind) && !kind.Submessage?
    requires !(schema[ty].repeated[j] && Packable(kind) && wireType == LEN)
    modifies buf
    ensures Merged(schema, ty, m, number, wireType, old(buf.bytes), r, buf.bytes)
  {
    if wireType != (if kind.Text? then LEN else VARINT) {
      return None;
    }
    if kind.Text? {
      var text := buf.ReadBytes();
      if text.None? || !ValidUtf8(text.value) {
        return None;
      }
      return Some(Store(schema, ty, m, j, Entry(number, S(text.value))));
    }
    var n := buf.ReadVarint();
    if n.None? {
      return None;
    }
    match kind
    case Enum(known) =>
      var raw := ToInt32(n.value);
      r := Some(if raw in known then Store(schema, ty, m, j, Entry(number, E(raw)))
                else m.(unknown := m.unknown + [Rec(number, Varint(FromInt(raw)))]));
    case Int32 => r := Some(Store(schema, ty, m, j, Entry(number, I32(ToInt32(n.value)))));
    case Int64 => r := Some(Store(schema, ty, m, j, Entry(number, I64(ToInt64(n.value)))));
    case Uint64 => r := Some(Store(schema, ty, m, j, Entry(number, U64(n.value))));
    case Bool => r := Some(Store(schema, ty, m, j, Entry(number, B(n.value != 0))));
  }

  /** Values read until the bytes are used up. */
  method ReadValues(number: nat, kind: Kind, limited: Buf) returns (r: Option<seq<Entry>>)
    requires Packable(kind)
    modifies limited
    ensures r == Unpack(number, kind, old(limited.bytes))
  {
    ghost var run := limited.bytes;
    var values: seq<Entry> := [];
    assert Unpack(number, kind, run).Some? ==> [] + Unpack(number, kind, run).value == Unpack(number, kind, run).value;
    while limited.bytes != []
      invariant match Unpack(number, kind, limited.bytes)
                case None => Unpack(number, kind, run).None?
                case Some(more) => Unpack(number, kind, run) == Some(values + more)
      decreases |limited.bytes|
    {
      var n := limited.ReadVarint();
      if n.None? {
        return None;
      }
      var v := DecodeScalar(kind, Varint(n.value)).value;
      ghost var more := Unpack(number, kind, limited.bytes);
      if more.Some? {
        assert values + ([Entry(number, v)] + more.value) == values + [Entry(number, v)] + more.value;
      }
      values := values + [Entry(number, v)];
    }
    assert values + [] == values;
    r := Some(values);
  }

  /** The values of a packed run. */
  method ReadPacked(number: nat, kind: Kind, buf: Buf) returns (r: Option<seq<Entry>>)
    requires Packable(kind)
    modifies buf
    ensures match ParseData(1, LEN, old(buf.bytes))
            case None => r.None?
            case Some((data, rest)) => r == Unpack(number, kind, data.bytes) && (r.Some? ==> buf.bytes == rest)
  {
    var run := buf.ReadBytes();
    if run.None? {
      return None;
    }
    var limited := new Buf(run.value);
    r := ReadValues(number, kind, limited);
  }

  /** A submessage: its own bytes, merged field by field. */
  method MergeLengthDelimited(schema: Schema, ty: TypeId, m: Message, buf: Buf) returns (r: Option<Message>)
    requires SchemaOk(schema) && Typed(schema, ty, m)
    modifies buf
    ensures match ParseData(1, LEN, old(buf.bytes))
            case None => r.None?
            case Some((data, rest)) => r == MergeBytes(schema, ty, m, data.bytes) && (r.Some? ==> buf.bytes == rest)
    decreases |buf.bytes|, 0
  {
    var payload := buf.ReadBytes();
    if payload.None? {
      return None;
    }
    var limited := new Buf(payload.value);
    r := MergeAll(schema, ty, m, limited);
  }

  method MergeAll(schema: Schema, ty: TypeId, m: Message, buf: Buf) returns (r: Option<Message>)
    requires SchemaOk(schema) && Typed(schema, ty, m)
    modifies buf
    ensures r == MergeBytes(schema, ty, m, old(buf.bytes))
    decreases |buf.bytes|, 2
  {
    var current := m;
    while buf.bytes != []
      invariant |buf.bytes| <= |old(buf.bytes)| && Typed(schema, ty, current)
      invariant MergeBytes(schema, ty, m, old(buf.bytes)) == MergeBytes(schema, ty, current, buf.bytes)
      decreases |buf.bytes|
    {
      var tag := buf.ReadTag();
      if tag.None? {
        return None;
      }
      var merged := MergeField(schema, ty, current, tag.value.0, tag.value.1, buf);
      if merged.None? {
        return None;
      }
      current := merged.value;
    }
    r := Some(current);
  }

  /** Decodes a whole message. */
  method DecodeFromSlice(schema: Schema, ty: TypeId, bytes: seq<byte>) returns (r: Option<Message>)
    requires SchemaOk(schema) && ty in schema
    ensures forall m :: r == Some(m) <==> Says(schema, ty, bytes, m)
    ensures r == Decode(schema, ty, bytes)
  {
    forall m ensures Decode(schema, ty, bytes) == Some(m) <==> Says(schema, ty, bytes, m) {
      DecodesExactly(schema, ty, bytes, m);
    }
    var buf := new Buf(bytes);
    r := MergeAll(schema, ty, Default(schema, ty), buf);
  }
}
