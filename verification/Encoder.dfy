/**
 The two passes of the generated encoder. `ComputeSize` records the size of
 every submessage in a queue, reserving the slot before it descends and setting
 it after; `WriteTo` takes the sizes from the queue, in order, as the length
 prefixes.
 */
module Encoder {
  import opened Wrappers
  import opened Wire
  import opened Codec
  import opened CodecLaws
  import opened WireForm

  const SIZE_MAX: nat := 0xFFFF_FFFF
  const MAX_MESSAGE_BYTES: nat := 0x7FFF_FFFF

  function Saturate(n: nat): nat {
    if n <= SIZE_MAX then n else SIZE_MAX
  }

  /** The side queue of submessage sizes. */
  class SizeCache {
    var sizes: seq<nat>
    var next: nat

    constructor ()
      ensures sizes == [] && next == 0
    {
      sizes := [];
      next := 0;
    }

    method Reserve() returns (slot: nat)
      modifies this
      ensures slot == |old(sizes)| && sizes == old(sizes) + [0] && next == old(next)
    {
      slot := |sizes|;
      sizes := sizes + [0];
    }

    method Set(slot: nat, size: nat)
      requires slot < |sizes|
      modifies this
      ensures sizes == old(sizes)[slot := size] && next == old(next)
    {
      sizes := sizes[slot := size];
    }

    method ConsumeNext() returns (size: nat)
      requires next < |sizes|
      modifies this
      ensures size == old(sizes[next]) && next == old(next) + 1 && sizes == old(sizes)
    {
      size := sizes[next];
      next := next + 1;
    }
  }

  class Sink {
    var bytes: seq<byte>

    constructor ()
      ensures bytes == []
    {
      bytes := [];
    }

    method Put(bs: seq<byte>)
      modifies this
      ensures bytes == old(bytes) + bs
    {
      bytes := bytes + bs;
    }
  }

  // ------------------------------------------------- the queue's specification

  /** The submessage sizes below one value, outermost first. */
  function EntryPrefixes(e: Entry): seq<nat>
    decreases e, 0
  {
    match e.val
    case M(x) => [Saturate(|Encode(x)|)] + Prefixes(x)
    case _ => []
  }

  /** Below the first `k` values of a repeated field. */
  function EntriesPrefixes(es: seq<Entry>, k: nat): seq<nat>
    requires k <= |es|
    decreases es, 1, k
  {
    if k == 0 then [] else EntriesPrefixes(es, k - 1) + EntryPrefixes(es[k - 1])
  }

  function SlotPrefixes(s: Slot): seq<nat>
    decreases s, 2
  {
    match s
    case One(None) => []
    case One(Some(e)) => EntryPrefixes(e)
    case Many(es) => EntriesPrefixes(es, |es|)
  }

  /** Below the first `i` fields of a message. */
  function SlotsPrefixes(slots: seq<Slot>, i: nat): seq<nat>
    requires i <= |slots|
    decreases slots, 3, i
  {
    if i == 0 then [] else SlotsPrefixes(slots, i - 1) + SlotPrefixes(slots[i - 1])
  }

  function Prefixes(m: Message): seq<nat>
    decreases m, 4
  {
    SlotsPrefixes(m.slots, |m.slots|)
  }

  // --------------------------------------------- the bytes, field after field

  /** One value's record. */
  ghost function EntryBytes(e: Entry): seq<byte> {
    EncodeRecs([EntryRec(e)])
  }

  ghost function EntriesBytes(es: seq<Entry>, k: nat): seq<byte>
    requires k <= |es|
  {
    if k == 0 then [] else EntriesBytes(es, k - 1) + EntryBytes(es[k - 1])
  }

  ghost function SlotsBytes(slots: seq<Slot>, i: nat): seq<byte>
    requires i <= |slots|
  {
    if i == 0 then [] else SlotsBytes(slots, i - 1) + EncodeRecs(SlotRecs(slots[i - 1]))
  }

  lemma {:induction false} OneRec(r: Rec)
    ensures EncodeRecs([r]) == EncodeRec(r)
  {
    assert EncodeRecs([r][1..]) == [];
  }

  lemma {:induction false} EntriesCons(es: seq<Entry>)
    requires es != []
    ensures EncodeRecs(EntriesRecs(es)) == EntryBytes(es[0]) + EncodeRecs(EntriesRecs(es[1..]))
  {
    OneRec(EntryRec(es[0]));
    assert EntriesRecs(es)[1..] == EntriesRecs(es[1..]);
  }

  lemma {:induction false} Regroup(a: seq<byte>, b: seq<byte>, c: seq<byte>)
    ensures (a + b) + c == a + (b + c)
  {
  }

  lemma {:induction false} EntriesBytesAll(es: seq<Entry>, k: nat)
    requires k <= |es|
    ensures EntriesBytes(es, k) + EncodeRecs(EntriesRecs(es[k..])) == EncodeRecs(EntriesRecs(es))
  {
    if k == 0 {
      assert es[0..] == es;
    } else {
      EntriesBytesAll(es, k - 1);
      EntriesCons(es[k - 1..]);
      assert es[k - 1..][1..] == es[k..];
      Regroup(EntriesBytes(es, k - 1), EntryBytes(es[k - 1]), EncodeRecs(EntriesRecs(es[k..])));
    }
  }

  lemma {:induction false} SlotsCons(slots: seq<Slot>)
    requires slots != []
    ensures EncodeRecs(SlotsRecs(slots)) == EncodeRecs(SlotRecs(slots[0])) + EncodeRecs(SlotsRecs(slots[1..]))
  {
    EncodeRecsAppend(SlotRecs(slots[0]), SlotsRecs(slots[1..]));
  }

  lemma {:induction false} SlotsBytesAll(slots: seq<Slot>, i: nat)
    requires i <= |slots|
    ensures SlotsBytes(slots, i) + EncodeRecs(SlotsRecs(slots[i..])) == EncodeRecs(SlotsRecs(slots))
  {
    if i == 0 {
      assert slots[0..] == slots;
    } else {
      SlotsBytesAll(slots, i - 1);
      SlotsCons(slots[i - 1..]);
      assert slots[i - 1..][1..] == slots[i..];
      Regroup(SlotsBytes(slots, i - 1), EncodeRecs(SlotRecs(slots[i - 1])), EncodeRecs(SlotsRecs(slots[i..])));
    }
  }

  lemma {:induction false} SlotBytes(es: seq<Entry>)
    ensures EncodeRecs(SlotRecs(Many(es))) == EntriesBytes(es, |es|)
  {
    EntriesBytesAll(es, |es|);
  }

  lemma {:induction false} AllSlots(slots: seq<Slot>)
    ensures SlotsBytes(slots, |slots|) == EncodeRecs(SlotsRecs(slots))
  {
    SlotsBytesAll(slots, |slots|);
    assert slots[|slots|..] == [];
    NothingMore(SlotsBytes(slots, |slots|));
  }

  lemma {:induction false} NothingMore(bs: seq<byte>)
    ensures bs + EncodeRecs([]) == bs && SlotsRecs([]) == []
  {
  }

  lemma {:induction false} EncodingSplits(m: Message)
    ensures Encode(m) == SlotsBytes(m.slots, |m.slots|) + EncodeRecs(m.unknown)
  {
    AllSlots(m.slots);
    EncodeRecsAppend(SlotsRecs(m.slots), m.unknown);
  }

  lemma {:induction false} SlotsPart(slots: seq<Slot>, i: nat, k: nat)
    requires i <= k <= |slots|
    ensures SlotsBytes(slots, i) <= SlotsBytes(slots, k)
    ensures SlotsPrefixes(slots, i) <= SlotsPrefixes(slots, k)
  {
    if i < k {
      SlotsPart(slots, i, k - 1);
    }
  }

  lemma {:induction false} EntriesPart(es: seq<Entry>, i: nat, k: nat)
    requires i <= k <= |es|
    ensures EntriesBytes(es, i) <= EntriesBytes(es, k)
    ensures EntriesPrefixes(es, i) <= EntriesPrefixes(es, k)
  {
    if i < k {
      EntriesPart(es, i, k - 1);
    }
  }

  /** Saturated sizes add up as the true ones do. */
  lemma {:induction false} SaturateAdds(a: nat, b: nat, x: nat, y: nat)
    requires Saturate(a) == Saturate(x) && Saturate(b) == Saturate(y)
    ensures Saturate(a + b) == Saturate(x + y)
  {
  }

  // -------------------------------------------------------------- first pass

  /** Saturates at the size type's maximum, never wraps. */
  method ComputeSize(m: Message, cache: SizeCache) returns (size: nat)
    modifies cache
    ensures size == Saturate(|Encode(m)|)
    ensures cache.sizes == old(cache.sizes) + Prefixes(m) && cache.next == old(cache.next)
    decreases m, 2
  {
    var total: nat := 0;
    for i := 0 to |m.slots|
      invariant Saturate(total) == Saturate(|SlotsBytes(m.slots, i)|)
      invariant cache.sizes == old(cache.sizes) + SlotsPrefixes(m.slots, i)
      invariant cache.next == old(cache.next)
    {
      var field := SlotSize(m.slots[i], cache);
      SaturateAdds(total, field, |SlotsBytes(m.slots, i)|, |EncodeRecs(SlotRecs(m.slots[i]))|);
      total := total + field;
    }
    EncodingSplits(m);
    SaturateAdds(total, |EncodeRecs(m.unknown)|, |SlotsBytes(m.slots, |m.slots|)|, |EncodeRecs(m.unknown)|);
    total := total + |EncodeRecs(m.unknown)|;
    size := Saturate(total);
  }

  method SlotSize(s: Slot, cache: SizeCache) returns (size: nat)
    modifies cache
    ensures Saturate(size) == Saturate(|EncodeRecs(SlotRecs(s))|)
    ensures cache.sizes == old(cache.sizes) + SlotPrefixes(s) && cache.next == old(cache.next)
    decreases s, 1
  {
    size := 0;
    match s
    case One(None) =>
    case One(Some(e)) =>
      size := EntrySize(e, cache);
    case Many(es) =>
      size := EntriesSize(es, cache);
      SlotBytes(es);
  }

  method EntriesSize(es: seq<Entry>, cache: SizeCache) returns (size: nat)
    modifies cache
    ensures Saturate(size) == Saturate(|EntriesBytes(es, |es|)|)
    ensures cache.sizes == old(cache.sizes) + EntriesPrefixes(es, |es|) && cache.next == old(cache.next)
    decreases es, 1
  {
    size := 0;
    for k := 0 to |es|
      invariant Saturate(size) == Saturate(|EntriesBytes(es, k)|)
      invariant cache.sizes == old(cache.sizes) + EntriesPrefixes(es, k)
      invariant cache.next == old(cache.next)
    {
      var item := EntrySize(es[k], cache);
      SaturateAdds(size, item, |EntriesBytes(es, k)|, |EntryBytes(es[k])|);
      size := size + item;
    }
  }

  /** Key, length and value of one field. */
  method EntrySize(e: Entry, cache: SizeCache) returns (size: nat)
    modifies cache
    ensures Saturate(size) == Saturate(|EntryBytes(e)|)
    ensures cache.sizes == old(cache.sizes) + EntryPrefixes(e) && cache.next == old(cache.next)
    decreases e, 0
  {
    OneRec(EntryRec(e));
    match e.val
    case M(x) =>
      size := SubmessageSize(e.number, x, cache);
    case S(text) =>
      VarintLenIsLength(8 * e.number + 2);
      VarintLenIsLength(|text|);
      size := VarintLen(8 * e.number + 2) + VarintLen(|text|) + |text|;
    case _ =>
      VarintLenIsLength(8 * e.number);
      VarintLenIsLength(Payload(e.val).n);
      size := VarintLen(8 * e.number) + VarintLen(Payload(e.val).n);
  }

  /** The slot is reserved before the submessage's own and set after them. */
  method SubmessageSize(number: nat, x: Message, cache: SizeCache) returns (size: nat)
    modifies cache
    ensures Saturate(size) == Saturate(|EncodeRec(Rec(number, Len(Encode(x))))|)
    ensures cache.sizes == old(cache.sizes) + ([Saturate(|Encode(x)|)] + Prefixes(x)) && cache.next == old(cache.next)
    decreases x, 3
  {
    var slot := cache.Reserve();
    var inner := ComputeSize(x, cache);
    cache.Set(slot, inner);
    size := VarintLen(8 * number + 2) + VarintLen(inner) + inner;
    SubmessageLength(number, x, inner);
  }

  lemma {:induction false} SubmessageLength(number: nat, x: Message, inner: nat)
    requires inner == Saturate(|Encode(x)|)
    ensures Saturate(VarintLen(8 * number + 2) + VarintLen(inner) + inner)
         == Saturate(|EncodeRec(Rec(number, Len(Encode(x))))|)
  {
    VarintLenIsLength(8 * number + 2);
    VarintLenIsLength(inner);
  }

  // ------------------------------------------------------------- second pass

  predicate QueuedAt(sizes: seq<nat>, at: nat, expected: seq<nat>) {
    at + |expected| <= |sizes| && forall i :: 0 <= i < |expected| ==> sizes[at + i] == expected[i]
  }

  /** The queue holds, from its cursor on, the sizes `expected`. */
  predicate Queued(cache: SizeCache, expected: seq<nat>)
    reads cache
  {
    QueuedAt(cache.sizes, cache.next, expected)
  }

  lemma {:induction false} QueuedPart(sizes: seq<nat>, at: nat, all: seq<nat>, done: seq<nat>, now: seq<nat>)
    requires QueuedAt(sizes, at, all) && done + now <= all
    ensures QueuedAt(sizes, at + |done|, now)
  {
    forall i | 0 <= i < |now| ensures sizes[at + |done| + i] == now[i] {
      assert all[|done| + i] == (done + now)[|done| + i];
      assert sizes[at + (|done| + i)] == all[|done| + i];
    }
  }

  /**
   Every length prefix is the queued size and is exact, and the queue ends just
   after this message's sizes.
   */
  method WriteTo(m: Message, cache: SizeCache, buf: Sink)
    requires |Encode(m)| <= SIZE_MAX && Queued(cache, Prefixes(m))
    modifies cache, buf
    ensures buf.bytes == old(buf.bytes) + Encode(m)
    ensures cache.sizes == old(cache.sizes) && cache.next == old(cache.next) + |Prefixes(m)|
    decreases m, 2
  {
    EncodingSplits(m);
    WriteSlots(m, cache, buf);
    Regroup(old(buf.bytes), SlotsBytes(m.slots, |m.slots|), EncodeRecs(m.unknown));
    buf.Put(EncodeRecs(m.unknown));
  }

  method WriteSlots(m: Message, cache: SizeCache, buf: Sink)
    requires |Encode(m)| <= SIZE_MAX && Queued(cache, Prefixes(m))
    modifies cache, buf
    ensures buf.bytes == old(buf.bytes) + SlotsBytes(m.slots, |m.slots|)
    ensures cache.sizes == old(cache.sizes) && cache.next == old(cache.next) + |Prefixes(m)|
    decreases m, 1
  {
    for i := 0 to |m.slots|
      invariant buf.bytes == old(buf.bytes) + SlotsBytes(m.slots, i)
      invariant cache.sizes == old(cache.sizes)
      invariant cache.next == old(cache.next) + |SlotsPrefixes(m.slots, i)|
    {
      SlotReady(m, cache.sizes, old(cache.next), i);
      WriteSlot(m.slots[i], cache, buf);
    }
  }

  /** Before slot `i` is written, the queue is at its sizes. */
  lemma {:induction false} SlotReady(m: Message, sizes: seq<nat>, at: nat, i: nat)
    requires i < |m.slots| && |Encode(m)| <= SIZE_MAX && QueuedAt(sizes, at, Prefixes(m))
    ensures |EncodeRecs(SlotRecs(m.slots[i]))| <= SIZE_MAX
    ensures QueuedAt(sizes, at + |SlotsPrefixes(m.slots, i)|, SlotPrefixes(m.slots[i]))
  {
    SlotsPart(m.slots, i + 1, |m.slots|);
    assert |EncodeRecs(SlotRecs(m.slots[i]))| <= SIZE_MAX by {
      EncodingSplits(m);
    }
    QueuedPart(sizes, at, Prefixes(m), SlotsPrefixes(m.slots, i), SlotPrefixes(m.slots[i]));
  }

  /** Before value `k` of a repeated field is written, likewise. */
  lemma {:induction false} EntryReady(es: seq<Entry>, sizes: seq<nat>, at: nat, k: nat)
    requires k < |es| && |EntriesBytes(es, |es|)| <= SIZE_MAX && QueuedAt(sizes, at, EntriesPrefixes(es, |es|))
    ensures |EntryBytes(es[k])| <= SIZE_MAX
    ensures QueuedAt(sizes, at + |EntriesPrefixes(es, k)|, EntryPrefixes(es[k]))
  {
    EntriesPart(es, k + 1, |es|);
    QueuedPart(sizes, at, EntriesPrefixes(es, |es|), EntriesPrefixes(es, k), EntryPrefixes(es[k]));
  }

  method WriteSlot(s: Slot, cache: SizeCache, buf: Sink)
    requires |EncodeRecs(SlotRecs(s))| <= SIZE_MAX && Queued(cache, SlotPrefixes(s))
    modifies cache, buf
    ensures buf.bytes == old(buf.bytes) + EncodeRecs(SlotRecs(s))
    ensures cache.sizes == old(cache.sizes) && cache.next == old(cache.next) + |SlotPrefixes(s)|
    decreases s, 1
  {
    match s
    case One(None) =>
    case One(Some(e)) =>
      WriteEntry(e, cache, buf);
    case Many(es) =>
      SlotBytes(es);
      WriteEntries(es, cache, buf);
  }

  method WriteEntries(es: seq<Entry>, cache: SizeCache, buf: Sink)
    requires |EntriesBytes(es, |es|)| <= SIZE_MAX && Queued(cache, EntriesPrefixes(es, |es|))
    modifies cache, buf
    ensures buf.bytes == old(buf.bytes) + EntriesBytes(es, |es|)
    ensures cache.sizes == old(cache.sizes) && cache.next == old(cache.next) + |EntriesPrefixes(es, |es|)|
    decreases es, 1
  {
    for k := 0 to |es|
      invariant buf.bytes == old(buf.bytes) + EntriesBytes(es, k)
      invariant cache.sizes == old(cache.sizes)
      invariant cache.next == old(cache.next) + |EntriesPrefixes(es, k)|
    {
      EntryReady(es, cache.sizes, old(cache.next), k);
      WriteEntry(es[k], cache, buf);
    }
  }

  method WriteEntry(e: Entry, cache: SizeCache, buf: Sink)
    requires |EntryBytes(e)| <= SIZE_MAX && Queued(cache, EntryPrefixes(e))
    modifies cache, buf
    ensures buf.bytes == old(buf.bytes) + EntryBytes(e)
    ensures cache.sizes == old(cache.sizes) && cache.next == old(cache.next) + |EntryPrefixes(e)|
    decreases e, 0
  {
    OneRec(EntryRec(e));
    match e.val
    case M(x) =>
      WriteSubmessage(e.number, x, cache, buf);
    case S(text) =>
      buf.Put(EncodeTag(e.number, LEN));
      buf.Put(EncodeVarint(|text|));
      buf.Put(text);
    case _ =>
      buf.Put(EncodeTag(e.number, VARINT));
      buf.Put(EncodeVarint(Payload(e.val).n));
  }

  /** The header of a submessage takes its length from the queue. */
  method WriteSubmessage(number: nat, x: Message, cache: SizeCache, buf: Sink)
    requires |EncodeRec(Rec(number, Len(Encode(x))))| <= SIZE_MAX
    requires Queued(cache, [Saturate(|Encode(x)|)] + Prefixes(x))
    modifies cache, buf
    ensures buf.bytes == old(buf.bytes) + EncodeRec(Rec(number, Len(Encode(x))))
    ensures cache.sizes == old(cache.sizes) && cache.next == old(cache.next) + 1 + |Prefixes(x)|
    decreases x, 3
  {
    ghost var all := [Saturate(|Encode(x)|)] + Prefixes(x);
    QueuedPart(cache.sizes, cache.next, all, [all[0]], Prefixes(x));
    var size := cache.ConsumeNext();
    assert size == all[0] == |Encode(x)|;
    buf.Put(EncodeTag(number, LEN));
    buf.Put(EncodeVarint(size));
    WriteTo(x, cache, buf);
  }

  /** Both passes: refuses exactly the messages over the limit. */
  method EncodeToVec(m: Message) returns (r: Option<seq<byte>>)
    ensures r == if |MessageForm(m)| <= 0x7FFF_FFFF then Some(MessageForm(m)) else None
  {
    MessageWritten(m);
    var cache := new SizeCache();
    var size := ComputeSize(m, cache);
    if size > MAX_MESSAGE_BYTES {
      return None;
    }
    var buf := new Sink();
    WriteTo(m, cache, buf);
    assert cache.next == |cache.sizes|;
    assert [] + Encode(m) == Encode(m);
    r := Some(buf.bytes);
  }
}
