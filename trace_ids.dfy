/**
 * What the two span classes share: 64-bit clock readings, the unsigned
 * subtraction that turns two readings into a duration, and the random
 * identifiers (generateTraceId and generateSpanId in LogTrace.hpp and in
 * src/Trace.cpp). The random engine is not modelled; its draws are passed in
 * as 32-bit words.
 */
module TraceIds {
  import opened Text

  const Two32: int := 0x1_0000_0000
  const Two64: int := 0x1_0000_0000_0000_0000

  type U32 = w: int | 0 <= w < 0x1_0000_0000
  /** A `uint64_t`: nanoseconds since the epoch, or a duration. */
  type U64 = n: int | 0 <= n < 0x1_0000_0000_0000_0000

  /** `a - b` on `uint64_t`: wraps around below zero. */
  function Sub64(a: U64, b: U64): (d: U64)
    ensures (b + d) % Two64 == a
    ensures b <= a ==> d == a - b
    ensures a < b ==> d == a - b + Two64
  {
    (a - b) % Two64
  }

  /** The text `oss << std::hex << std::setfill('0') << std::setw(8) << w` leaves for each word, in order. */
  function HexWords(words: seq<U32>): (s: string)
    ensures |s| == 8 * |words|
    ensures forall i :: 0 <= i < |s| ==> IsHexDigit(s[i])
  {
    if words == [] then ""
    else HexWords(words[..|words| - 1]) + Hex8(words[|words| - 1])
  }

  /** Each group of eight characters is the hexadecimal value of its word. */
  lemma {:induction false} HexWordsReadBack(words: seq<U32>, i: nat)
    requires i < |words|
    ensures HexValue(HexWords(words)[8 * i..8 * i + 8]) == words[i]
  {
    var prefix := HexWords(words[..|words| - 1]);
    var last := Hex8(words[|words| - 1]);
    assert HexWords(words) == prefix + last;
    if i < |words| - 1 {
      SliceOfLeft(prefix, last, 8 * i, 8 * i + 8);
      HexWordsReadBack(words[..|words| - 1], i);
      assert words[..|words| - 1][i] == words[i];
    } else {
      assert 8 * i == |prefix|;
      SliceOfRight(prefix, last);
      assert HexWords(words)[8 * i..8 * i + 8] == last;
    }
  }

  lemma SliceOfLeft(a: string, b: string, lo: nat, hi: nat)
    requires lo <= hi <= |a|
    ensures (a + b)[lo..hi] == a[lo..hi]
  {
  }

  lemma SliceOfRight(a: string, b: string)
    ensures (a + b)[|a|..|a| + |b|] == b
  {
  }

  /** The words can be read back from the identifier: different draws give different identifiers. */
  lemma HexWordsInjective(a: seq<U32>, b: seq<U32>)
    requires |a| == |b| && HexWords(a) == HexWords(b)
    ensures a == b
  {
    forall i | 0 <= i < |a| ensures a[i] == b[i] {
      HexWordsReadBack(a, i);
      HexWordsReadBack(b, i);
    }
  }

  /** The loop of generateTraceId (4 words) and generateSpanId (2 words) over the drawn words. */
  method GenerateId(draws: seq<U32>) returns (id: string)
    ensures id == HexWords(draws)
  {
    id := "";
    var i := 0;
    while i < |draws|
      invariant 0 <= i <= |draws|
      invariant id == HexWords(draws[..i])
    {
      assert draws[..i + 1][..i] == draws[..i];
      id := id + Hex8(draws[i]);
      i := i + 1;
    }
    assert draws[..i] == draws;
  }

  /** generateTraceId: four words, 32 lowercase hexadecimal characters. */
  method GenerateTraceId(draws: seq<U32>) returns (id: string)
    requires |draws| == 4
    ensures id == HexWords(draws)
    ensures |id| == 32 && forall i :: 0 <= i < 32 ==> IsHexDigit(id[i])
  {
    id := GenerateId(draws);
  }

  /** generateSpanId: two words, 16 lowercase hexadecimal characters. */
  method GenerateSpanId(draws: seq<U32>) returns (id: string)
    requires |draws| == 2
    ensures id == HexWords(draws)
    ensures |id| == 16 && forall i :: 0 <= i < 16 ==> IsHexDigit(id[i])
  {
    id := GenerateId(draws);
  }
}
