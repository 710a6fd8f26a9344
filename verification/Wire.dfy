/**
 The Protocol Buffers wire format, after the public "Encoding" specification:
 "Base 128 Varints", "Message Structure" and "Length-Delimited Records". A
 record is one key and its payload; an unknown field of a message is kept as
 one, groups included.
 */
module Wire {
  import opened Wrappers

  type byte = x: int | 0 <= x < 256

  const U64_LIMIT: nat := 0x1_0000_0000_0000_0000

  type u64 = n: nat | n < U64_LIMIT

  const NUMBER_LIMIT: nat := 0x2000_0000

  // ---------------------------------------------------------------- varints

  function EncodeVarint(n: nat): (bs: seq<byte>)
    ensures |bs| >= 1
  {
    if n < 128 then [n] else [n % 128 + 128] + EncodeVarint(n / 128)
  }

  function VarintLen(n: nat): nat {
    if n < 128 then 1 else 1 + VarintLen(n / 128)
  }

  lemma {:induction false} VarintLenIsLength(n: nat)
    ensures VarintLen(n) == |EncodeVarint(n)|
  {
    if n >= 128 {
      VarintLenIsLength(n / 128);
    }
  }

  /** Reads at most `budget` bytes. */
  function DecodeGroups(bs: seq<byte>, budget: nat): (r: Option<(nat, seq<byte>)>)
    ensures r.Some? ==> |r.value.1| < |bs|
  {
    if bs == [] || budget == 0 then None
    else if bs[0] < 128 then Some((bs[0], bs[1..]))
    else
      var (high, rest) :- DecodeGroups(bs[1..], budget - 1);
      Some((bs[0] - 128 + 128 * high, rest))
  }

  /** A varint is at most ten bytes and holds a 64-bit value. */
  function DecodeVarint(bs: seq<byte>): (r: Option<(u64, seq<byte>)>)
    ensures r.Some? ==> |r.value.1| < |bs|
  {
    var (n, rest) :- DecodeGroups(bs, 10);
    if n < U64_LIMIT then Some((n, rest)) else None
  }

  lemma {:induction false} GroupsRoundTrip(n: nat, budget: nat, rest: seq<byte>)
    requires |EncodeVarint(n)| <= budget
    ensures DecodeGroups(EncodeVarint(n) + rest, budget) == Some((n, rest))
  {
    var bs := EncodeVarint(n) + rest;
    if n < 128 {
      assert bs[1..] == rest;
    } else {
      assert bs[1..] == EncodeVarint(n / 128) + rest;
      GroupsRoundTrip(n / 128, budget - 1, rest);
    }
  }

  lemma {:induction false} VarintAtMostTenBytes(n: nat)
    requires n < U64_LIMIT
    ensures |EncodeVarint(n)| <= 10
  {
    VarintSize(n, 10, [128, 0x4000, 0x20_0000, 0x1000_0000, 0x8_0000_0000, 0x400_0000_0000,
                       0x2_0000_0000_0000, 0x100_0000_0000_0000, 0x8000_0000_0000_0000,
                       0x40_0000_0000_0000_0000]);
  }

  /** `powers[i]` is 128 to the power `i + 1`. */
  lemma {:induction false} VarintSize(n: nat, k: nat, powers: seq<nat>)
    requires 1 <= k <= |powers| && powers[0] == 128
    requires forall i :: 0 < i < |powers| ==> powers[i] == 128 * powers[i - 1]
    requires n < powers[k - 1]
    ensures |EncodeVarint(n)| <= k
  {
    if n >= 128 {
      VarintSize(n / 128, k - 1, powers);
    }
  }

  lemma {:induction false} VarintRoundTrip(n: nat, rest: seq<byte>)
    requires n < U64_LIMIT
    ensures DecodeVarint(EncodeVarint(n) + rest) == Some((n, rest))
  {
    VarintAtMostTenBytes(n);
    GroupsRoundTrip(n, 10, rest);
  }

  lemma {:induction false} GroupsPrefix(bs: seq<byte>, budget: nat, more: seq<byte>)
    requires DecodeGroups(bs, budget).Some?
    ensures DecodeGroups(bs + more, budget)
         == Some((DecodeGroups(bs, budget).value.0, DecodeGroups(bs, budget).value.1 + more))
  {
    assert (bs + more)[1..] == bs[1..] + more;
    if bs[0] >= 128 {
      GroupsPrefix(bs[1..], budget - 1, more);
    }
  }

  // ---------------------------------------------------------------- records

  /** The payload of a record. Fixed-width payloads are kept as their bytes. */
  datatype Data =
    | Varint(n: u64)
    | Fixed64(bits: seq<byte>)
    | Len(bytes: seq<byte>)
    | Group(fields: seq<Rec>)
    | Fixed32(bits: seq<byte>)

  datatype Rec = Rec(number: nat, data: Data)

  const VARINT := 0
  const FIXED64 := 1
  const LEN := 2
  const START_GROUP := 3
  const END_GROUP := 4
  const FIXED32 := 5

  predicate NumberOk(number: nat) {
    1 <= number < NUMBER_LIMIT
  }

  /** What an in-memory unknown field satisfies. */
  predicate RecOk(r: Rec)
    decreases r
  {
    && NumberOk(r.number)
    && match r.data
       case Varint(_) => true
       case Fixed64(bits) => |bits| == 8
       case Len(_) => true
       case Group(fields) => RecsOk(fields)
       case Fixed32(bits) => |bits| == 4
  }

  predicate RecsOk(rs: seq<Rec>)
    decreases rs
  {
    forall i :: 0 <= i < |rs| ==> RecOk(rs[i])
  }

  function WireType(d: Data): nat {
    match d
    case Varint(_) => VARINT
    case Fixed64(_) => FIXED64
    case Len(_) => LEN
    case Group(_) => START_GROUP
    case Fixed32(_) => FIXED32
  }

  function EncodeTag(number: nat, wireType: nat): seq<byte> {
    EncodeVarint(8 * number + wireType)
  }

  function EncodeRec(r: Rec): (bs: seq<byte>)
    ensures |bs| >= 1
    decreases r, 1
  {
    EncodeTag(r.number, WireType(r.data)) + EncodeData(r.number, r.data)
  }

  function EncodeData(number: nat, d: Data): seq<byte>
    decreases d, 0
  {
    match d
    case Varint(n) => EncodeVarint(n)
    case Fixed64(bits) => bits
    case Len(bytes) => EncodeVarint(|bytes|) + bytes
    case Group(fields) => EncodeRecs(fields) + EncodeTag(number, END_GROUP)
    case Fixed32(bits) => bits
  }

  function EncodeRecs(rs: seq<Rec>): seq<byte>
    decreases rs, 0
  {
    if rs == [] then [] else EncodeRec(rs[0]) + EncodeRecs(rs[1..])
  }

  /** A key: the field number and the wire type. */
  function DecodeTag(bs: seq<byte>): (r: Option<(nat, nat, seq<byte>)>)
    ensures r.Some? ==> |r.value.2| < |bs| && NumberOk(r.value.0) && r.value.1 <= FIXED32
  {
    var (key, rest) :- DecodeVarint(bs);
    if NumberOk(key / 8) && key % 8 <= FIXED32 then Some((key / 8, key % 8, rest)) else None
  }

  /** The payload after a key. A group runs to the end key of its own number. */
  function ParseData(number: nat, wireType: nat, bs: seq<byte>): (r: Option<(Data, seq<byte>)>)
    ensures r.Some? ==> |r.value.1| <= |bs|
    ensures r.Some? && r.value.0.Len? ==> |r.value.0.bytes| + |r.value.1| < |bs|
    ensures r.Some? && NumberOk(number) ==> RecOk(Rec(number, r.value.0))
    decreases |bs|, 1
  {
    if wireType == VARINT then
      var (n, rest) :- DecodeVarint(bs);
      Some((Varint(n), rest))
    else if wireType == FIXED64 then
      if |bs| < 8 then None else Some((Fixed64(bs[..8]), bs[8..]))
    else if wireType == LEN then
      var (len, rest) :- DecodeVarint(bs);
      if |rest| < len then None else Some((Len(rest[..len]), rest[len..]))
    else if wireType == START_GROUP then
      var (fields, rest) :- ParseGroup(number, bs);
      Some((Group(fields), rest))
    else if wireType == FIXED32 then
      if |bs| < 4 then None else Some((Fixed32(bs[..4]), bs[4..]))
    else None
  }

  function ParseGroup(number: nat, bs: seq<byte>): (r: Option<(seq<Rec>, seq<byte>)>)
    ensures r.Some? ==> |r.value.1| < |bs| && RecsOk(r.value.0)
    decreases |bs|, 0
  {
    var (key, wireType, rest) :- DecodeTag(bs);
    if wireType == END_GROUP then
      if key == number then Some(([], rest)) else None
    else
      var (data, rest1) :- ParseData(key, wireType, rest);
      var (fields, rest2) :- ParseGroup(number, rest1);
      Some(([Rec(key, data)] + fields, rest2))
  }

  function ParseRec(bs: seq<byte>): (r: Option<(Rec, seq<byte>)>)
    ensures r.Some? ==> |r.value.1| < |bs| && RecOk(r.value.0)
    ensures r.Some? && r.value.0.data.Len? ==> |r.value.0.data.bytes| + |r.value.1| < |bs|
  {
    var (number, wireType, rest) :- DecodeTag(bs);
    var (data, rest1) :- ParseData(number, wireType, rest);
    Some((Rec(number, data), rest1))
  }

  lemma {:induction false} TagRoundTrip(number: nat, wireType: nat, rest: seq<byte>)
    requires NumberOk(number) && wireType <= FIXED32
    ensures DecodeTag(EncodeTag(number, wireType) + rest) == Some((number, wireType, rest))
  {
    VarintRoundTrip(8 * number + wireType, rest);
  }

  /** Parsing undoes encoding, whatever follows. */
  lemma {:induction false} RecRoundTrip(r: Rec, rest: seq<byte>)
    requires RecOk(r) && |EncodeRec(r)| < U64_LIMIT
    ensures ParseRec(EncodeRec(r) + rest) == Some((r, rest))
    decreases r, 1
  {
    var tag, body := EncodeTag(r.number, WireType(r.data)), EncodeData(r.number, r.data);
    assert EncodeRec(r) + rest == tag + (body + rest);
    TagRoundTrip(r.number, WireType(r.data), body + rest);
    DataRoundTrip(r.number, r.data, rest);
  }

  lemma {:induction false} DataRoundTrip(number: nat, d: Data, rest: seq<byte>)
    requires RecOk(Rec(number, d)) && |EncodeData(number, d)| < U64_LIMIT
    ensures ParseData(number, WireType(d), EncodeData(number, d) + rest) == Some((d, rest))
    decreases d, 0
  {
    var bs := EncodeData(number, d) + rest;
    match d
    case Varint(n) => VarintRoundTrip(n, rest);
    case Fixed64(bits) => assert bs[..8] == bits && bs[8..] == rest;
    case Fixed32(bits) => assert bs[..4] == bits && bs[4..] == rest;
    case Len(bytes) =>
      assert bs == EncodeVarint(|bytes|) + (bytes + rest);
      VarintRoundTrip(|bytes|, bytes + rest);
      assert (bytes + rest)[..|bytes|] == bytes && (bytes + rest)[|bytes|..] == rest;
    case Group(fields) =>
      assert bs == EncodeRecs(fields) + EncodeTag(number, END_GROUP) + rest;
      GroupRoundTrip(number, fields, rest);
  }

  lemma {:induction false} GroupRoundTrip(number: nat, rs: seq<Rec>, rest: seq<byte>)
    requires NumberOk(number) && RecsOk(rs) && |EncodeRecs(rs)| < U64_LIMIT
    ensures ParseGroup(number, EncodeRecs(rs) + EncodeTag(number, END_GROUP) + rest) == Some((rs, rest))
    decreases rs, 0
  {
    var end := EncodeTag(number, END_GROUP);
    var bs := EncodeRecs(rs) + end + rest;
    if rs == [] {
      assert bs == end + rest;
      TagRoundTrip(number, END_GROUP, rest);
    } else {
      var r, tail := rs[0], EncodeRecs(rs[1..]) + end + rest;
      var tag, body := EncodeTag(r.number, WireType(r.data)), EncodeData(r.number, r.data);
      assert RecOk(r);
      assert bs == tag + (body + tail);
      TagRoundTrip(r.number, WireType(r.data), body + tail);
      assert bs == EncodeRec(r) + tail;
      RecRoundTrip(r, tail);
      GroupRoundTrip(number, rs[1..], rest);
      assert [Rec(r.number, r.data)] + rs[1..] == rs;
    }
  }

  // --------------------------------------------------------- prefix property

  lemma {:induction false} VarintPrefix(bs: seq<byte>, more: seq<byte>)
    requires DecodeVarint(bs).Some?
    ensures DecodeVarint(bs + more) == Some((DecodeVarint(bs).value.0, DecodeVarint(bs).value.1 + more))
  {
    GroupsPrefix(bs, 10, more);
  }

  lemma {:induction false} TagPrefix(bs: seq<byte>, more: seq<byte>)
    requires DecodeTag(bs).Some?
    ensures DecodeTag(bs + more)
         == Some((DecodeTag(bs).value.0, DecodeTag(bs).value.1, DecodeTag(bs).value.2 + more))
  {
    VarintPrefix(bs, more);
  }

  /** What a parse reads does not depend on what follows. */
  lemma {:induction false} DataPrefix(number: nat, wireType: nat, bs: seq<byte>, more: seq<byte>)
    requires ParseData(number, wireType, bs).Some?
    ensures ParseData(number, wireType, bs + more)
         == Some((ParseData(number, wireType, bs).value.0, ParseData(number, wireType, bs).value.1 + more))
    decreases |bs|, 1
  {
    if wireType == VARINT {
      VarintPrefix(bs, more);
    } else if wireType == FIXED64 {
      assert (bs + more)[..8] == bs[..8] && (bs + more)[8..] == bs[8..] + more;
    } else if wireType == LEN {
      VarintPrefix(bs, more);
      var (len, rest) := DecodeVarint(bs).value;
      assert (rest + more)[..len] == rest[..len] && (rest + more)[len..] == rest[len..] + more;
    } else if wireType == START_GROUP {
      GroupPrefix(number, bs, more);
    } else {
      assert (bs + more)[..4] == bs[..4] && (bs + more)[4..] == bs[4..] + more;
    }
  }

  lemma {:induction false} GroupPrefix(number: nat, bs: seq<byte>, more: seq<byte>)
    requires ParseGroup(number, bs).Some?
    ensures ParseGroup(number, bs + more)
         == Some((ParseGroup(number, bs).value.0, ParseGroup(number, bs).value.1 + more))
    decreases |bs|, 0
  {
    TagPrefix(bs, more);
    var (key, wireType, rest) := DecodeTag(bs).value;
    if wireType != END_GROUP {
      DataPrefix(key, wireType, rest, more);
      var (data, rest1) := ParseData(key, wireType, rest).value;
      GroupPrefix(number, rest1, more);
    }
  }

  lemma {:induction false} RecPrefix(bs: seq<byte>, more: seq<byte>)
    requires ParseRec(bs).Some?
    ensures ParseRec(bs + more) == Some((ParseRec(bs).value.0, ParseRec(bs).value.1 + more))
  {
    TagPrefix(bs, more);
    var (number, wireType, rest) := DecodeTag(bs).value;
    DataPrefix(number, wireType, rest, more);
  }

  lemma {:induction false} EncodeRecsAppend(a: seq<Rec>, b: seq<Rec>)
    ensures EncodeRecs(a + b) == EncodeRecs(a) + EncodeRecs(b)
  {
    if a == [] {
      assert a + b == b;
    } else {
      assert (a + b)[1..] == a[1..] + b;
      EncodeRecsAppend(a[1..], b);
    }
  }
}
