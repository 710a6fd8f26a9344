/** Strings as UTF-8, the form in which the codec holds text. */
module Utf8 {
  import opened Wire
  import opened Codec

  /** Six more bits, and the code point they complete. */
  function AppendBits(high: int, low: int): int {
    64 * high + low
  }

  function Low(n: int): (b: byte)
    ensures Continuation(b)
  {
    0x80 + n % 64
  }

  function EncodeChar(c: char): seq<byte> {
    var n := c as int;
    if n < 0x80 then [n]
    else if n < 0x800 then [0xC0 + n / 64, Low(n)]
    else if n < 0x1_0000 then [0xE0 + n / 64 / 64, Low(n / 64), Low(n)]
    else [0xF0 + n / 64 / 64 / 64, Low(n / 64 / 64), Low(n / 64), Low(n)]
  }

  function ToUtf8(s: string): seq<byte> {
    if s == [] then [] else EncodeChar(s[0]) + ToUtf8(s[1..])
  }

  function FromUtf8(bs: seq<byte>): string
    requires ValidUtf8(bs)
  {
    if bs == [] then []
    else if bs[0] < 0x80 then [bs[0] as char] + FromUtf8(bs[1..])
    else if bs[0] < 0xE0 then [AppendBits(bs[0] - 0xC0, bs[1] - 0x80) as char] + FromUtf8(bs[2..])
    else if bs[0] < 0xF0 then
      [AppendBits(AppendBits(bs[0] - 0xE0, bs[1] - 0x80), bs[2] - 0x80) as char] + FromUtf8(bs[3..])
    else
      [AppendBits(AppendBits(AppendBits(bs[0] - 0xF0, bs[1] - 0x80), bs[2] - 0x80), bs[3] - 0x80) as char]
      + FromUtf8(bs[4..])
  }

  lemma {:induction false} Rejoin(n: int)
    requires n >= 0
    ensures AppendBits(n / 64, Low(n) - 0x80) == n
  {
  }

  lemma {:induction false} TwoBytes(c: char, rest: seq<byte>)
    requires 0x80 <= c as int < 0x800 && ValidUtf8(rest)
    ensures ValidUtf8(EncodeChar(c) + rest) && FromUtf8(EncodeChar(c) + rest) == [c] + FromUtf8(rest)
  {
    Rejoin(c as int);
    assert (EncodeChar(c) + rest)[2..] == rest;
  }

  lemma {:induction false} ThreeBytes(c: char, rest: seq<byte>)
    requires 0x800 <= c as int < 0x1_0000 && ValidUtf8(rest)
    ensures ValidUtf8(EncodeChar(c) + rest) && FromUtf8(EncodeChar(c) + rest) == [c] + FromUtf8(rest)
  {
    Rejoin(c as int);
    Rejoin(c as int / 64);
    assert (EncodeChar(c) + rest)[3..] == rest;
  }

  lemma {:induction false} FourBytes(c: char, rest: seq<byte>)
    requires 0x1_0000 <= c as int && ValidUtf8(rest)
    ensures ValidUtf8(EncodeChar(c) + rest) && FromUtf8(EncodeChar(c) + rest) == [c] + FromUtf8(rest)
  {
    Rejoin(c as int);
    Rejoin(c as int / 64);
    Rejoin(c as int / 64 / 64);
    assert (EncodeChar(c) + rest)[4..] == rest;
  }

  lemma {:induction false} CharReads(c: char, rest: seq<byte>)
    requires ValidUtf8(rest)
    ensures ValidUtf8(EncodeChar(c) + rest) && FromUtf8(EncodeChar(c) + rest) == [c] + FromUtf8(rest)
  {
    if c as int < 0x80 {
      assert (EncodeChar(c) + rest)[1..] == rest;
    } else if c as int < 0x800 {
      TwoBytes(c, rest);
    } else if c as int < 0x1_0000 {
      ThreeBytes(c, rest);
    } else {
      FourBytes(c, rest);
    }
  }

  /** Every string is well-formed UTF-8, and comes back from it. */
  lemma {:induction false} Utf8RoundTrip(s: string)
    ensures ValidUtf8(ToUtf8(s)) && FromUtf8(ToUtf8(s)) == s
  {
    if s != [] {
      Utf8RoundTrip(s[1..]);
      CharReads(s[0], ToUtf8(s[1..]));
    }
  }

  /** The bits of a byte under its mark. */
  function Bits(b: int, mark: int): int {
    b - mark
  }

  /** The bytes of a code point: by its size one to four, each but the first with six of its bits. */
  predicate CharBytes(n: int, bs: seq<byte>) {
    && 1 <= |bs| <= 4
    && (forall i :: 1 <= i < |bs| ==> 0x80 <= bs[i] <= 0xBF)
    && match |bs|
       case 1 => n == bs[0] && n < 0x80
       case 2 => n == 0x40 * Bits(bs[0], 0xC0) + Bits(bs[1], 0x80) && 0x80 <= n < 0x800
       case 3 =>
         && n == 0x1000 * Bits(bs[0], 0xE0) + 0x40 * Bits(bs[1], 0x80) + Bits(bs[2], 0x80)
         && 0x800 <= n < 0x1_0000
       case _ =>
         && n == 0x4_0000 * Bits(bs[0], 0xF0) + 0x1000 * Bits(bs[1], 0x80) + 0x40 * Bits(bs[2], 0x80)
                 + Bits(bs[3], 0x80)
         && 0x1_0000 <= n <= 0x10_FFFF
  }

  lemma {:induction false} CharWritten(c: char)
    ensures CharBytes(c as int, EncodeChar(c))
  {
  }

  /** A string is its characters' bytes, one after the other. */
  lemma {:induction false} TextWritten(s: string, i: nat)
    requires i < |s|
    ensures exists bs :: CharBytes(s[i] as int, bs) && ToUtf8(s) == ToUtf8(s[..i]) + bs + ToUtf8(s[i + 1..])
  {
    CharWritten(s[i]);
    TextAppends(s[..i], s[i..]);
    assert s == s[..i] + s[i..];
    assert ToUtf8(s) == ToUtf8(s[..i]) + EncodeChar(s[i]) + ToUtf8(s[i + 1..]);
  }

  lemma {:induction false} TextAppends(a: string, b: string)
    ensures ToUtf8(a + b) == ToUtf8(a) + ToUtf8(b)
  {
    if a == [] {
      assert a + b == b;
    } else {
      assert (a + b)[1..] == a[1..] + b;
      TextAppends(a[1..], b);
    }
  }

  lemma {:induction false} LastBits(a: int, b: int, c: int, d: int)
    requires 0 <= b < 0x40 && 0 <= d < 0x40 && 0x40 * a + b == 0x40 * c + d
    ensures a == c && b == d
  {
  }

  lemma {:induction false} SameWidth(n: int, a: seq<byte>, b: seq<byte>)
    requires CharBytes(n, a) && CharBytes(n, b)
    ensures |a| == |b|
  {
  }

  lemma {:induction false} TwoOnce(n: int, a: seq<byte>, b: seq<byte>)
    requires CharBytes(n, a) && CharBytes(n, b) && |a| == |b| == 2
    ensures a[0] == b[0] && a[1] == b[1]
  {
    LastBits(Bits(a[0], 0xC0), Bits(a[1], 0x80), Bits(b[0], 0xC0), Bits(b[1], 0x80));
  }

  lemma {:induction false} ThreeOnce(n: int, a: seq<byte>, b: seq<byte>)
    requires CharBytes(n, a) && CharBytes(n, b) && |a| == |b| == 3
    ensures a[0] == b[0] && a[1] == b[1] && a[2] == b[2]
  {
    var highA, highB := 0x40 * Bits(a[0], 0xE0) + Bits(a[1], 0x80), 0x40 * Bits(b[0], 0xE0) + Bits(b[1], 0x80);
    LastBits(highA, Bits(a[2], 0x80), highB, Bits(b[2], 0x80));
    LastBits(Bits(a[0], 0xE0), Bits(a[1], 0x80), Bits(b[0], 0xE0), Bits(b[1], 0x80));
  }

  lemma {:induction false} FourOnce(n: int, a: seq<byte>, b: seq<byte>)
    requires CharBytes(n, a) && CharBytes(n, b) && |a| == |b| == 4
    ensures a[0] == b[0] && a[1] == b[1] && a[2] == b[2] && a[3] == b[3]
  {
    var topA, topB := 0x40 * Bits(a[0], 0xF0) + Bits(a[1], 0x80), 0x40 * Bits(b[0], 0xF0) + Bits(b[1], 0x80);
    var highA, highB := 0x40 * topA + Bits(a[2], 0x80), 0x40 * topB + Bits(b[2], 0x80);
    LastBits(highA, Bits(a[3], 0x80), highB, Bits(b[3], 0x80));
    LastBits(topA, Bits(a[2], 0x80), topB, Bits(b[2], 0x80));
    LastBits(Bits(a[0], 0xF0), Bits(a[1], 0x80), Bits(b[0], 0xF0), Bits(b[1], 0x80));
  }

  /** A code point has its bytes to itself. */
  lemma {:induction false} CharBytesOnce(n: int, a: seq<byte>, b: seq<byte>)
    requires CharBytes(n, a) && CharBytes(n, b)
    ensures a == b
  {
    SameWidth(n, a, b);
    if |a| == 2 {
      TwoOnce(n, a, b);
    } else if |a| == 3 {
      ThreeOnce(n, a, b);
    } else if |a| == 4 {
      FourOnce(n, a, b);
    }
  }

  function Width(lead: byte): nat {
    if lead < 0x80 then 1 else if lead < 0xE0 then 2 else if lead < 0xF0 then 3 else 4
  }

  lemma {:induction false} FirstChar(bs: seq<byte>)
    requires ValidUtf8(bs) && bs != []
    ensures var k := Width(bs[0]);
            && k <= |bs| && ValidUtf8(bs[k..])
            && FromUtf8(bs) != [] && FromUtf8(bs)[1..] == FromUtf8(bs[k..])
            && CharBytes(FromUtf8(bs)[0] as int, bs[..k])
  {
  }

  lemma {:induction false} TextStep(text: string, bs: seq<byte>, k: nat)
    requires text != [] && k <= |bs| && CharBytes(text[0] as int, bs[..k]) && ToUtf8(text[1..]) == bs[k..]
    ensures ToUtf8(text) == bs
  {
    CharWritten(text[0]);
    CharBytesOnce(text[0] as int, EncodeChar(text[0]), bs[..k]);
    assert bs == bs[..k] + bs[k..];
  }

  lemma {:induction false} TextRead(bs: seq<byte>)
    requires ValidUtf8(bs)
    ensures ToUtf8(FromUtf8(bs)) == bs
    decreases |bs|
  {
    if bs != [] {
      FirstChar(bs);
      var k := Width(bs[0]);
      TextRead(bs[k..]);
      TextStep(FromUtf8(bs), bs, k);
    }
  }

  /** Bytes are well formed exactly when they are the bytes of some string. */
  lemma {:induction false} ValidExactly(bs: seq<byte>)
    ensures ValidUtf8(bs) <==> exists s :: ToUtf8(s) == bs
  {
    if ValidUtf8(bs) {
      TextRead(bs);
    }
    if s :| ToUtf8(s) == bs {
      Utf8RoundTrip(s);
    }
  }
}
