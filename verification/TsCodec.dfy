/** Timestamp compression and sequence number comparison in wrapping 64-bit words. */
module TsCodec {

  predicate IsLong(x: int) { -0x8000_0000_0000_0000 <= x < 0x8000_0000_0000_0000 }

  /** Reading a signed word as unsigned and back. */
  function ToUlong(x: int): nat { x % 0x1_0000_0000_0000_0000 }

  function ToLong(u: int): (x: int)
    ensures IsLong(x)
  {
    var w := u % 0x1_0000_0000_0000_0000;
    if w < 0x8000_0000_0000_0000 then w else w - 0x1_0000_0000_0000_0000
  }

  /** The low 32 bits. */
  function Compress(ts: int): (c: nat)
    ensures c < 0x1_0000_0000
  {
    ToUlong(ts) % 0x1_0000_0000
  }

  /** Clears the low 32 bits of a word and puts tscomp there. */
  function Decompress(tscomp: nat, tsref: int): int
    requires tscomp < 0x1_0000_0000
  {
    var msb := (ToUlong(tsref) + 0x7FFF_FFFF - tscomp) % 0x1_0000_0000_0000_0000;
    ToLong(msb / 0x1_0000_0000 * 0x1_0000_0000 + tscomp)
  }

  /** How far ts is ahead of tsref, as a wrapping word sees it. */
  function Ahead(ts: int, tsref: int): int { ToLong(ts - tsref) }

  // Both reductions are piecewise linear on the words that occur.

  lemma UlongOf(x: int)
    requires IsLong(x)
    ensures ToUlong(x) == if x >= 0 then x else x + 0x1_0000_0000_0000_0000
  {
  }

  lemma LongOf(x: int)
    requires -0x1_0000_0000_0000_0000 < x < 0x1_0000_0000_0000_0000
    ensures ToLong(x) == if x < -0x8000_0000_0000_0000 then x + 0x1_0000_0000_0000_0000
                         else if x < 0x8000_0000_0000_0000 then x else x - 0x1_0000_0000_0000_0000
  {
  }

  lemma MsbOf(u: nat, tscomp: nat)
    requires u < 0x1_0000_0000_0000_0000 && tscomp < 0x1_0000_0000
    ensures (u + 0x7FFF_FFFF - tscomp) % 0x1_0000_0000_0000_0000 ==
      var x := u + 0x7FFF_FFFF - tscomp;
      if x < 0 then x + 0x1_0000_0000_0000_0000
      else if x < 0x1_0000_0000_0000_0000 then x
      else x - 0x1_0000_0000_0000_0000
  {
  }

  /** What decompression returns: the one timestamp with these low bits less than half
      the 32-bit range ahead of the reference, or up to half of it behind. */
  lemma DecompressNearest(tscomp: nat, tsref: int)
    requires tscomp < 0x1_0000_0000 && IsLong(tsref)
    ensures var r := Decompress(tscomp, tsref);
      IsLong(r) && Compress(r) == tscomp && -0x8000_0000 <= Ahead(r, tsref) < 0x8000_0000
  {
    hide ToLong, ToUlong;
    UlongOf(tsref);
    MsbOf(ToUlong(tsref), tscomp);
    var msb := (ToUlong(tsref) + 0x7FFF_FFFF - tscomp) % 0x1_0000_0000_0000_0000;
    var hi := msb / 0x1_0000_0000;
    LongOf(hi * 0x1_0000_0000 + tscomp);
    var r := Decompress(tscomp, tsref);
    UlongOf(r);
    assert ToUlong(r) == hi * 0x1_0000_0000 + tscomp;
    assert Compress(r) == tscomp by { LowBits(hi, tscomp); }
    HighPart(msb);
    LongOf(r - tsref);
  }

  lemma LowBits(hi: nat, low: nat)
    requires low < 0x1_0000_0000
    ensures (hi * 0x1_0000_0000 + low) % 0x1_0000_0000 == low
  {
  }

  lemma HighPart(x: nat)
    ensures x / 0x1_0000_0000 * 0x1_0000_0000 <= x < x / 0x1_0000_0000 * 0x1_0000_0000 + 0x1_0000_0000
  {
  }

  lemma SameLowBits(a: int, b: int)
    requires IsLong(a) && IsLong(b) && Compress(a) == Compress(b) && -0x1_0000_0000 < ToLong(a - b) < 0x1_0000_0000
    ensures a == b
  {
    hide ToLong, ToUlong;
    UlongOf(a);
    UlongOf(b);
    LongOf(a - b);
  }

  lemma AheadApart(a: int, b: int, ref: int)
    requires IsLong(a) && IsLong(b) && IsLong(ref)
    requires -0x8000_0000 <= Ahead(a, ref) < 0x8000_0000 && -0x8000_0000 <= Ahead(b, ref) < 0x8000_0000
    ensures -0x1_0000_0000 < ToLong(a - b) < 0x1_0000_0000
  {
    hide ToLong;
    LongOf(a - ref);
    LongOf(b - ref);
    LongOf(a - b);
  }

  /** Decompression undoes compression exactly on timestamps within half the 32-bit
      range of the reference, counted around the end of the 64-bit range. */
  lemma RoundTrip(ts: int, tsref: int)
    requires IsLong(ts) && IsLong(tsref)
    ensures Decompress(Compress(ts), tsref) == ts <==> -0x8000_0000 <= Ahead(ts, tsref) < 0x8000_0000
    ensures -0x8000_0000 <= ts - tsref < 0x8000_0000 ==> Decompress(Compress(ts), tsref) == ts
  {
    hide ToLong, ToUlong, Decompress;
    LongOf(ts - tsref);
    DecompressNearest(Compress(ts), tsref);
    if -0x8000_0000 <= Ahead(ts, tsref) < 0x8000_0000 {
      AheadApart(ts, Decompress(Compress(ts), tsref), tsref);
      SameLowBits(ts, Decompress(Compress(ts), tsref));
    }
  }

  predicate SeqLt(a: nat, b: nat) { ToLong(a - b) < 0 }
  function SeqInc(a: nat, d: nat): nat { (a + d) % 0x1_0000_0000_0000_0000 }
  function SeqDiff(a: nat, b: nat): int { ToLong(a - b) }

  /** In any window of 2^63 consecutive sequence numbers, wherever it starts and whether
      or not it wraps, comparison and difference are those of the counts. */
  lemma SeqOrder(base: nat, i: nat, j: nat)
    requires base < 0x1_0000_0000_0000_0000 && i < 0x8000_0000_0000_0000 && j < 0x8000_0000_0000_0000
    ensures SeqLt(SeqInc(base, i), SeqInc(base, j)) <==> i < j
    ensures SeqDiff(SeqInc(base, i), SeqInc(base, j)) == i - j
  {
  }
}
