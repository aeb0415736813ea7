/** Length-prefixed chunks, as `_write_bytes` feeds them to the hasher, and a reader for them. */
module Chunks {
  import opened Options

  type byte = x: int | 0 <= x < 256

  const TWO_64: int := 0x1_0000_0000_0000_0000

  /** What `struct.pack('>Q', len(value))` accepts. */
  type Bytes = s: seq<byte> | |s| < TWO_64

  /** 256 to the power of `width`. */
  function Power(width: nat): (p: nat)
    ensures p > 0
  {
    if width == 0 then 1 else 256 * Power(width - 1)
  }

  /** The `width` low digits of `n` to base 256, most significant first. */
  function BigEndian(n: nat, width: nat): (s: seq<byte>)
    ensures |s| == width
  {
    if width == 0 then [] else BigEndian(n / 256, width - 1) + [n % 256]
  }

  function FromBigEndian(s: seq<byte>): nat {
    if s == [] then 0 else 256 * FromBigEndian(s[..|s| - 1]) + s[|s| - 1]
  }

  lemma {:induction false} DigitsBound(s: seq<byte>)
    ensures FromBigEndian(s) < Power(|s|)
  {
    if s != [] {
      DigitsBound(s[..|s| - 1]);
    }
  }

  lemma LastDigit(high: seq<byte>, low: byte)
    ensures FromBigEndian(high + [low]) == 256 * FromBigEndian(high) + low
  {
    assert (high + [low])[..|high|] == high;
  }

  lemma QuotientFits(n: nat, p: nat)
    requires n < 256 * p
    ensures n / 256 < p
  {
  }

  lemma {:induction false} NumberFromItsDigits(n: nat, width: nat)
    requires n < Power(width)
    ensures FromBigEndian(BigEndian(n, width)) == n
  {
    if width > 0 {
      var s, high := BigEndian(n, width), BigEndian(n / 256, width - 1);
      assert s == high + [n % 256];
      QuotientFits(n, Power(width - 1));
      NumberFromItsDigits(n / 256, width - 1);
      LastDigit(high, n % 256);
    }
  }

  lemma {:induction false} DigitsOfTheirNumber(s: seq<byte>)
    ensures BigEndian(FromBigEndian(s), |s|) == s
  {
    if s != [] {
      var init := s[..|s| - 1];
      DigitsOfTheirNumber(init);
      assert FromBigEndian(s) / 256 == FromBigEndian(init) && FromBigEndian(s) % 256 == s[|s| - 1];
      assert s == init + [s[|s| - 1]];
    }
  }

  lemma EightBytes()
    ensures Power(8) == TWO_64
  {
    assert Power(2) == 0x1_0000;
    assert Power(4) == 0x1_0000_0000;
    assert Power(6) == 0x1_0000_0000_0000;
  }

  function Chunk(v: Bytes): seq<byte> {
    BigEndian(|v|, 8) + v
  }

  function ChunksOf(vs: seq<Bytes>): seq<byte> {
    if vs == [] then [] else Chunk(vs[0]) + ChunksOf(vs[1..])
  }

  /** The first chunk of a stream and what follows it. */
  function ReadChunk(stream: seq<byte>): (r: Option<(Bytes, seq<byte>)>)
    ensures r.Some? ==> |r.value.1| < |stream|
  {
    if |stream| < 8 then None
    else
      var n := FromBigEndian(stream[..8]);
      if n >= TWO_64 || |stream| - 8 < n then None else Some((stream[8..8 + n], stream[8 + n..]))
  }

  function ReadChunks(stream: seq<byte>): Option<seq<Bytes>>
    decreases |stream|
  {
    if stream == [] then Some([])
    else
      var first := ReadChunk(stream);
      if first.None? then None
      else
        var rest := ReadChunks(first.value.1);
        if rest.None? then None else Some([first.value.0] + rest.value)
  }

  lemma ReadWhatWasWritten(v: Bytes, rest: seq<byte>)
    ensures ReadChunk(Chunk(v) + rest) == Some((v, rest))
  {
    var stream := Chunk(v) + rest;
    EightBytes();
    NumberFromItsDigits(|v|, 8);
    assert stream[..8] == BigEndian(|v|, 8);
    assert stream[8..8 + |v|] == v && stream[8 + |v|..] == rest;
  }

  /** Chunks can be told apart again, whatever bytes they hold. */
  lemma {:induction false} ChunksAreRead(vs: seq<Bytes>)
    ensures ReadChunks(ChunksOf(vs)) == Some(vs)
  {
    if vs != [] {
      ReadWhatWasWritten(vs[0], ChunksOf(vs[1..]));
      ChunksAreRead(vs[1..]);
      assert vs == [vs[0]] + vs[1..];
    }
  }

  lemma ThreeParts(s: seq<byte>, i: nat, j: nat)
    requires i <= j <= |s|
    ensures s == s[..i] + s[i..j] + s[j..]
  {
  }

  /** And a stream that reads as chunks is the stream of those chunks. */
  lemma {:induction false} ReadStreamsAreChunks(stream: seq<byte>)
    requires ReadChunks(stream).Some?
    ensures ChunksOf(ReadChunks(stream).value) == stream
    decreases |stream|
  {
    if stream != [] {
      var v, rest := ReadChunk(stream).value.0, ReadChunk(stream).value.1;
      ReadStreamsAreChunks(rest);
      DigitsOfTheirNumber(stream[..8]);
      ThreeParts(stream, 8, 8 + |v|);
      var vs := ReadChunks(stream).value;
      assert vs[0] == v && vs[1..] == ReadChunks(rest).value;
    }
  }

  lemma {:induction false} ChunksAppend(a: seq<Bytes>, b: seq<Bytes>)
    ensures ChunksOf(a + b) == ChunksOf(a) + ChunksOf(b)
  {
    if a == [] {
      assert a + b == b;
    } else {
      ChunksAppend(a[1..], b);
      assert (a + b)[1..] == a[1..] + b;
    }
  }
}
