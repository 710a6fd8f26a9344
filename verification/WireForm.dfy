/**
 The bytes themselves, in literal numbers: what a message is on the wire, and which
 bytes are which record.
 */
module WireForm {
  import opened Wrappers
  import opened Wire
  import opened Codec

  // -------------------------------------------------------------------------- varints

  /** The value of groups of seven bits, the lowest first. */
  function Groups(bs: seq<byte>): nat {
    if bs == [] then 0 else bs[0] % 128 + 128 * Groups(bs[1..])
  }

  /** All bytes but the last are marked. */
  predicate Marked(bs: seq<byte>) {
    && bs != [] && bs[|bs| - 1] < 128
    && forall i :: 0 <= i < |bs| - 1 ==> bs[i] >= 128
  }

  /** A varint is written in as few bytes as hold it. */
  lemma {:induction false} VarintForm(n: nat)
    ensures Marked(EncodeVarint(n)) && Groups(EncodeVarint(n)) == n
    ensures |EncodeVarint(n)| > 1 ==> EncodeVarint(n)[|EncodeVarint(n)| - 1] > 0
  {
    if n >= 128 {
      VarintForm(n / 128);
      assert EncodeVarint(n)[1..] == EncodeVarint(n / 128);
    } else {
      assert EncodeVarint(n)[1..] == [];
    }
  }

  /** A varint is read from at most ten bytes, and holds at most 64 bits. */
  ghost predicate VarintRead(bs: seq<byte>, n: nat, rest: seq<byte>) {
    n < 0x1_0000_0000_0000_0000
    && exists k :: 1 <= k <= 10 && k <= |bs| && bs[k..] == rest && Marked(bs[..k]) && Groups(bs[..k]) == n
  }

  lemma {:induction false} MarkedTail(bs: seq<byte>, k: nat)
    requires 1 < k <= |bs| && bs[0] >= 128
    ensures Marked(bs[..k]) <==> Marked(bs[1..][..k - 1])
    ensures Groups(bs[..k]) == bs[0] - 128 + 128 * Groups(bs[1..][..k - 1])
  {
    assert bs[..k][1..] == bs[1..][..k - 1];
    assert bs[..k] == [bs[0]] + bs[1..][..k - 1];
  }

  lemma {:induction false} MarkedOne(bs: seq<byte>)
    requires bs != []
    ensures Marked(bs[..1]) <==> bs[0] < 128
    ensures Groups(bs[..1]) == bs[0] % 128
  {
    assert bs[..1][1..] == [];
  }

  lemma {:induction false} GroupsRead(bs: seq<byte>, budget: nat)
    requires DecodeGroups(bs, budget).Some?
    ensures var (n, rest) := DecodeGroups(bs, budget).value;
            var k := |bs| - |rest|;
            1 <= k <= budget && k <= |bs| && bs[k..] == rest && Marked(bs[..k]) && Groups(bs[..k]) == n
  {
    MarkedOne(bs);
    if bs[0] >= 128 {
      GroupsRead(bs[1..], budget - 1);
      MarkedTail(bs, |bs| - |DecodeGroups(bs, budget).value.1|);
    }
  }

  lemma {:induction false} GroupsFound(bs: seq<byte>, budget: nat, k: nat)
    requires 1 <= k <= budget && k <= |bs| && Marked(bs[..k])
    ensures DecodeGroups(bs, budget) == Some((Groups(bs[..k]), bs[k..]))
  {
    MarkedOne(bs);
    if k > 1 {
      assert bs[..k][0] == bs[0];
      MarkedTail(bs, k);
      GroupsFound(bs[1..], budget - 1, k - 1);
    }
  }

  lemma {:induction false} VarintReads(bs: seq<byte>, n: nat, rest: seq<byte>)
    ensures (DecodeVarint(bs).Some? && DecodeVarint(bs).value.0 == n && DecodeVarint(bs).value.1 == rest)
            <==> VarintRead(bs, n, rest)
  {
    if DecodeVarint(bs).Some? {
      GroupsRead(bs, 10);
    }
    if VarintRead(bs, n, rest) {
      var k :| 1 <= k <= 10 && k <= |bs| && bs[k..] == rest && Marked(bs[..k]) && Groups(bs[..k]) == n;
      GroupsFound(bs, 10, k);
    }
  }

  // --------------------------------------------------------------------- what is written

  /** A key is the field number and, in its low three bits, how the payload is to be read. */
  function KeyForm(number: nat, wireType: nat): seq<byte> {
    EncodeVarint(8 * number + wireType)
  }

  function Prefixed(bs: seq<byte>): seq<byte> {
    EncodeVarint(|bs|) + bs
  }

  /** One value of a field: integers, booleans and enums as varints, the rest with their length. */
  function EntryForm(e: Entry): seq<byte>
    decreases e, 1
  {
    match e.val
    case I32(i) => KeyForm(e.number, 0) + EncodeVarint(if i < 0 then i + 0x1_0000_0000_0000_0000 else i)
    case I64(i) => KeyForm(e.number, 0) + EncodeVarint(if i < 0 then i + 0x1_0000_0000_0000_0000 else i)
    case U64(n) => KeyForm(e.number, 0) + EncodeVarint(n)
    case B(b) => KeyForm(e.number, 0) + [if b then 1 else 0]
    case E(i) => KeyForm(e.number, 0) + EncodeVarint(if i < 0 then i + 0x1_0000_0000_0000_0000 else i)
    case S(text) => KeyForm(e.number, 2) + Prefixed(text)
    case M(m) => KeyForm(e.number, 2) + Prefixed(MessageForm(m))
  }

  function EntriesForm(es: seq<Entry>): seq<byte>
    decreases es, 2
  {
    if es == [] then [] else EntryForm(es[0]) + EntriesForm(es[1..])
  }

  function SlotForm(s: Slot): seq<byte>
    decreases s, 3
  {
    match s
    case One(None) => []
    case One(Some(e)) => EntryForm(e)
    case Many(es) => EntriesForm(es)
  }

  function SlotsForm(slots: seq<Slot>): seq<byte>
    decreases slots, 4
  {
    if slots == [] then [] else SlotForm(slots[0]) + SlotsForm(slots[1..])
  }

  /** An unknown field is written as it was read. */
  function RecForm(r: Rec): seq<byte>
    decreases r, 1
  {
    match r.data
    case Varint(n) => KeyForm(r.number, 0) + EncodeVarint(n)
    case Fixed64(bits) => KeyForm(r.number, 1) + bits
    case Len(bytes) => KeyForm(r.number, 2) + Prefixed(bytes)
    case Group(fields) => KeyForm(r.number, 3) + RecsForm(fields) + KeyForm(r.number, 4)
    case Fixed32(bits) => KeyForm(r.number, 5) + bits
  }

  function RecsForm(rs: seq<Rec>): seq<byte>
    decreases rs, 0
  {
    if rs == [] then [] else RecForm(rs[0]) + RecsForm(rs[1..])
  }

  /** A message: its fields in the order of its type's slots, then its unknown fields. */
  function MessageForm(m: Message): seq<byte>
    decreases m, 5
  {
    SlotsForm(m.slots) + RecsForm(m.unknown)
  }

  lemma {:induction false} RecWritten(r: Rec)
    ensures EncodeRec(r) == RecForm(r)
    decreases r, 1
  {
    if r.data.Group? {
      RecsWritten(r.data.fields);
    }
  }

  lemma {:induction false} RecsWritten(rs: seq<Rec>)
    ensures EncodeRecs(rs) == RecsForm(rs)
    decreases rs, 0
  {
    if rs != [] {
      RecWritten(rs[0]);
      RecsWritten(rs[1..]);
    }
  }

  lemma {:induction false} EntryWritten(e: Entry)
    ensures EncodeRec(EntryRec(e)) == EntryForm(e)
    decreases e, 1
  {
    match e.val
    case I32(i) => SignWritten(i);
    case I64(i) => SignWritten(i);
    case U64(_) =>
    case B(b) => assert EncodeVarint(if b then 1 else 0) == [if b then 1 else 0];
    case E(i) => SignWritten(i);
    case S(_) =>
    case M(m) => MessageWritten(m);
  }

  lemma {:induction false} SignWritten(i: int64)
    ensures FromInt(i) == if i < 0 then i + 0x1_0000_0000_0000_0000 else i
  {
  }

  lemma {:induction false} EntriesWritten(es: seq<Entry>)
    ensures EncodeRecs(EntriesRecs(es)) == EntriesForm(es)
    decreases es, 2
  {
    if es != [] {
      EntryWritten(es[0]);
      EntriesWritten(es[1..]);
      assert EntriesRecs(es)[1..] == EntriesRecs(es[1..]);
    }
  }

  lemma {:induction false} SlotWritten(s: Slot)
    ensures EncodeRecs(SlotRecs(s)) == SlotForm(s)
    decreases s, 3
  {
    match s
    case One(None) =>
    case One(Some(e)) =>
      EntryWritten(e);
      assert [EntryRec(e)][1..] == [];
    case Many(es) => EntriesWritten(es);
  }

  lemma {:induction false} SlotsWritten(slots: seq<Slot>)
    ensures EncodeRecs(SlotsRecs(slots)) == SlotsForm(slots)
    decreases slots, 4
  {
    if slots != [] {
      SlotWritten(slots[0]);
      SlotsWritten(slots[1..]);
      EncodeRecsAppend(SlotRecs(slots[0]), SlotsRecs(slots[1..]));
    }
  }

  /** The encoding of any message is its bytes as above. */
  lemma {:induction false} MessageWritten(m: Message)
    ensures Encode(m) == MessageForm(m)
    decreases m, 5
  {
    SlotsWritten(m.slots);
    RecsWritten(m.unknown);
    EncodeRecsAppend(SlotsRecs(m.slots), m.unknown);
  }

  // -------------------------------------------------------------------- records read

  /** The low three bits of a record's key: how its payload is to be read. */
  function KeyBits(d: Data): nat {
    match d
    case Varint(_) => 0
    case Fixed64(_) => 1
    case Len(_) => 2
    case Group(_) => 3
    case Fixed32(_) => 5
  }

  /** A key, in the bytes before `rest`. */
  ghost predicate KeyRead(bs: seq<byte>, number: nat, bits: nat, rest: seq<byte>) {
    1 <= number < 0x2000_0000 && bits <= 5 && VarintRead(bs, 8 * number + bits, rest)
  }

  /** A record, in the bytes before `rest`. */
  ghost predicate RecRead(bs: seq<byte>, r: Rec, rest: seq<byte>)
    decreases r, 1
  {
    exists tail :: KeyRead(bs, r.number, KeyBits(r.data), tail) && PayloadRead(tail, r.number, r.data, rest)
  }

  /** A payload, in the bytes before `rest`. */
  ghost predicate PayloadRead(bs: seq<byte>, number: nat, d: Data, rest: seq<byte>)
    decreases d, 1
  {
    match d
    case Varint(n) => VarintRead(bs, n, rest)
    case Fixed64(bits) => |bits| == 8 && bs == bits + rest
    case Len(bytes) => VarintRead(bs, |bytes|, bytes + rest)
    case Group(fields) => GroupRead(bs, number, fields, rest)
    case Fixed32(bits) => |bits| == 4 && bs == bits + rest
  }

  /** The fields of a group, up to the end key with its number. */
  ghost predicate GroupRead(bs: seq<byte>, number: nat, fields: seq<Rec>, rest: seq<byte>)
    decreases fields, 0, 1
  {
    if fields == [] then KeyRead(bs, number, 4, rest)
    else exists tail :: GroupFrom(bs, tail, number, fields, rest)
  }

  ghost predicate GroupFrom(bs: seq<byte>, tail: seq<byte>, number: nat, fields: seq<Rec>, rest: seq<byte>)
    requires fields != []
    decreases fields, 0, 0
  {
    RecRead(bs, fields[0], tail) && GroupRead(tail, number, fields[1..], rest)
  }

  lemma {:induction false} KeyReads(bs: seq<byte>, number: nat, bits: nat, rest: seq<byte>)
    ensures DecodeTag(bs) == Some((number, bits, rest)) <==> KeyRead(bs, number, bits, rest)
  {
    VarintReads(bs, 8 * number + bits, rest);
    if DecodeTag(bs).Some? {
      var (key, tail) := DecodeVarint(bs).value;
      assert key == 8 * (key / 8) + key % 8;
    }
  }

  lemma {:induction false} FixedReads(bs: seq<byte>, width: nat, bits: seq<byte>, rest: seq<byte>)
    ensures |bs| >= width && bits == bs[..width] && rest == bs[width..] <==> |bits| == width && bs == bits + rest
  {
  }

  lemma {:induction false} LenReads(number: nat, bs: seq<byte>, bytes: seq<byte>, rest: seq<byte>)
    ensures ParseData(number, 2, bs) == Some((Len(bytes), rest)) <==> VarintRead(bs, |bytes|, bytes + rest)
  {
    VarintReads(bs, |bytes|, bytes + rest);
    if ParseData(number, 2, bs).Some? {
      var (len, tail) := DecodeVarint(bs).value;
      assert tail == tail[..len] + tail[len..];
    }
    assert (bytes + rest)[..|bytes|] == bytes && (bytes + rest)[|bytes|..] == rest;
  }

  /** What follows a key, exactly. */
  lemma {:induction false} PayloadReads(bs: seq<byte>, number: nat, d: Data, rest: seq<byte>)
    ensures ParseData(number, KeyBits(d), bs) == Some((d, rest)) <==> PayloadRead(bs, number, d, rest)
    decreases d, 1
  {
    match d
    case Varint(n) => VarintReads(bs, n, rest);
    case Fixed64(bits) => FixedReads(bs, 8, bits, rest);
    case Len(bytes) => LenReads(number, bs, bytes, rest);
    case Group(fields) => GroupReads(bs, number, fields, rest);
    case Fixed32(bits) => FixedReads(bs, 4, bits, rest);
  }

  /** The bits of a key tell the payload's form. */
  lemma {:induction false} BitsOfPayload(number: nat, bits: nat, bs: seq<byte>)
    ensures ParseData(number, bits, bs).Some? ==> KeyBits(ParseData(number, bits, bs).value.0) == bits
  {
  }

  lemma {:induction false} RecReads(bs: seq<byte>, r: Rec, rest: seq<byte>)
    ensures ParseRec(bs) == Some((r, rest)) <==> RecRead(bs, r, rest)
    decreases r, 2
  {
    if DecodeTag(bs).Some? {
      var (number, bits, tail) := DecodeTag(bs).value;
      KeyReads(bs, number, bits, tail);
      BitsOfPayload(number, bits, tail);
      PayloadReads(tail, r.number, r.data, rest);
    }
    if RecRead(bs, r, rest) {
      var tail :| KeyRead(bs, r.number, KeyBits(r.data), tail) && PayloadRead(tail, r.number, r.data, rest);
      KeyReads(bs, r.number, KeyBits(r.data), tail);
    }
  }

  lemma {:induction false} GroupReads(bs: seq<byte>, number: nat, fields: seq<Rec>, rest: seq<byte>)
    ensures ParseGroup(number, bs) == Some((fields, rest)) <==> GroupRead(bs, number, fields, rest)
    decreases fields, 0
  {
    if fields == [] {
      KeyReads(bs, number, 4, rest);
    } else {
      GroupOpens(bs, number);
      if ParseGroup(number, bs) == Some((fields, rest)) {
        var tail := ParseRec(bs).value.1;
        RecReads(bs, fields[0], tail);
        GroupReads(tail, number, fields[1..], rest);
        assert GroupFrom(bs, tail, number, fields, rest);
      }
      if GroupRead(bs, number, fields, rest) {
        var tail := GroupFirst(bs, number, fields, rest);
        RecReads(bs, fields[0], tail);
        GroupReads(tail, number, fields[1..], rest);
        NotAnEnd(bs);
        assert [fields[0]] + fields[1..] == fields;
      }
    }
  }

  lemma {:induction false} GroupFirst(bs: seq<byte>, number: nat, fields: seq<Rec>, rest: seq<byte>)
    returns (tail: seq<byte>)
    requires fields != [] && GroupRead(bs, number, fields, rest)
    ensures GroupFrom(bs, tail, number, fields, rest)
  {
    tail :| GroupFrom(bs, tail, number, fields, rest);
  }

  /** A group goes on with a record, unless it ends here. */
  lemma {:induction false} GroupOpens(bs: seq<byte>, number: nat)
    ensures DecodeTag(bs).Some? && DecodeTag(bs).value.1 != 4 ==>
              ParseGroup(number, bs) ==
              if ParseRec(bs).None? then None
              else if ParseGroup(number, ParseRec(bs).value.1).None? then None
              else Some(([ParseRec(bs).value.0] + ParseGroup(number, ParseRec(bs).value.1).value.0,
                         ParseGroup(number, ParseRec(bs).value.1).value.1))
  {
  }

  lemma {:induction false} NotAnEnd(bs: seq<byte>)
    ensures ParseRec(bs).Some? ==> DecodeTag(bs).Some? && DecodeTag(bs).value.1 != 4
  {
  }
}
