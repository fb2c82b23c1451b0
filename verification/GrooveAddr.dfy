/** Sizes, size-class search, headers and pointers of groove allocations. */
module GrooveAddr {
  import opened GrooveConfig

  const ALIGN_DEFAULT: nat := 16
  const FOOTPRINT_MAX: nat := 10486272

  // ----- the size check -----------------------------------------------------------------------

  /** Rounding up as 64-bit words do it: add and mask, both wrapping. */
  function WordAlignUp(x: nat): nat {
    (x + 511) % 0x1_0000_0000_0000_0000 / 512 * 512
  }

  predicate ValidAlign(align: nat) {
    align in {1, 2, 4, 8, 16, 32, 64, 128, 256, 512}
  }

  /** Where the caller's bytes start in the object: the header, rounded up to the
      alignment. */
  function ObjectStart(align: nat): nat {
    if align <= 16 then 16 else align
  }

  /** The footprint alloc computes, in wrapping words. */
  function WordFootprint(align: nat, sz: nat): nat {
    WordAlignUp((ObjectStart(align) + sz) % 0x1_0000_0000_0000_0000)
  }

  /** Alignment zero asks for the default. */
  function Effective(align: nat): nat {
    if align == 0 then ALIGN_DEFAULT else align
  }

  predicate Accepts(align: nat, sz: nat) {
    var a := Effective(align);
    ValidAlign(a) && sz < WordFootprint(a, sz) <= FOOTPRINT_MAX
  }

  /** The footprint without any wrapping. */
  function TrueFootprint(align: nat, sz: nat): nat {
    (ObjectStart(align) + sz + 511) / 512 * 512
  }

  /** The checks let through exactly the requests with a power-of-two alignment up to 512
      whose true footprint fits, and for those the computed footprint is the true one. */
  lemma SizeCheckExact(align: nat, sz: nat)
    requires sz < 0x1_0000_0000_0000_0000
    ensures Accepts(align, sz) <==> ValidAlign(Effective(align)) && TrueFootprint(Effective(align), sz) <= FOOTPRINT_MAX
    ensures Accepts(align, sz) ==>
      WordFootprint(Effective(align), sz) == TrueFootprint(Effective(align), sz) && sz < 0x200_0000
  {
    var a := Effective(align);
    if ValidAlign(a) {
      var x := ObjectStart(a) + sz;
      assert 16 <= ObjectStart(a) <= 512;
      hide WordAlignUp, ObjectStart;
      RoundUp(x);
      if x + 511 >= 0x1_0000_0000_0000_0000 {
        Wrapped(x);
      } else {
        NotWrapped(x);
      }
    }
  }

  lemma RoundUp(x: nat)
    ensures x <= (x + 511) / 512 * 512 < x + 512
  {
  }

  lemma NotWrapped(x: nat)
    requires x + 511 < 0x1_0000_0000_0000_0000
    ensures WordAlignUp(x % 0x1_0000_0000_0000_0000) == (x + 511) / 512 * 512
  {
    assert x % 0x1_0000_0000_0000_0000 == x;
  }

  lemma Wrapped(x: nat)
    requires 0xFFFF_FFFF_FFFF_FE01 <= x < 0x1_0000_0000_0000_0200
    ensures WordAlignUp(x % 0x1_0000_0000_0000_0000) <= 1024
  {
    if x < 0x1_0000_0000_0000_0000 {
      assert x % 0x1_0000_0000_0000_0000 == x;
      assert (x + 511) % 0x1_0000_0000_0000_0000 == x + 511 - 0x1_0000_0000_0000_0000;
    } else {
      assert x % 0x1_0000_0000_0000_0000 == x - 0x1_0000_0000_0000_0000;
    }
  }

  // ----- the size class -------------------------------------------------------------------------

  /** Five rounds of halving find the tightest class of the 32. */
  method SizeClass(cfg: seq<SzcCfg>, footprint: nat) returns (c: nat)
    requires |cfg| == 32 && Ascending(cfg) && footprint <= cfg[31].objFootprint
    ensures c < 32 && footprint <= cfg[c].objFootprint && forall d | 0 <= d < c :: cfg[d].objFootprint < footprint
  {
    var l, h := 0, 31;
    var r, span := 0, 31;
    while r < 5
      invariant 0 <= r <= 5 && 0 <= l <= h <= 31 && h - l <= span
      invariant span == [31, 15, 7, 3, 1, 0][r]
      invariant footprint <= cfg[h].objFootprint && forall d | 0 <= d < l :: cfg[d].objFootprint < footprint
    {
      var m := (l + h) / 2;
      var fits := cfg[m].objFootprint >= footprint;
      if !fits {
        assert forall d | 0 <= d <= m :: cfg[d].objFootprint <= cfg[m].objFootprint;
      }
      l := if fits then l else m + 1;
      h := if fits then m else h;
      r := r + 1;
      span := span / 2;
    }
    c := h;
  }

  /** The caller's promise to the search holds for every accepted request on the
      shipped table. */
  lemma AcceptedHasClass(align: nat, sz: nat)
    requires Accepts(align, sz)
    ensures |SZC_CFG| == 32 && Ascending(SZC_CFG) && WordFootprint(Effective(align), sz) <= SZC_CFG[31].objFootprint
  {
    TableIsValid();
  }

  // ----- headers -----------------------------------------------------------------------------------

  /** The two words of a header: the packed fields, and the caller's tag. */
  datatype Hdr = Hdr(bits: bv64, info: bv64)

  function Pack(kind: bv64, idx: bv64, szc: bv64, align: bv64, sz: bv64, info: bv64): Hdr {
    Hdr(kind | (idx << 16) | (szc << 22) | (align << 29) | (sz << 39), info)
  }

  function Kind(h: Hdr): bv64 { h.bits & 65535 }
  function Idx(h: Hdr): bv64 { (h.bits >> 16) & 63 }
  function SzcField(h: Hdr): bv64 { (h.bits >> 22) & 127 }
  function AlignField(h: Hdr): bv64 { (h.bits >> 29) & 1023 }
  function Sz(h: Hdr): bv64 { h.bits >> 39 }
  function Tag(h: Hdr): bv64 { h.info }

  /** A header gives back every field put into it, whatever the tag. */
  lemma HeaderRoundTrip(kind: bv64, idx: bv64, szc: bv64, align: bv64, sz: bv64, info: bv64)
    requires kind < 0x1_0000 && idx < 0x40 && szc < 0x80 && align < 0x400 && sz < 0x200_0000
    ensures var h := Pack(kind, idx, szc, align, sz, info);
      Kind(h) == kind && Idx(h) == idx && SzcField(h) == szc && AlignField(h) == align && Sz(h) == sz && Tag(h) == info
  {
  }

  // ----- pointers ------------------------------------------------------------------------------------

  /** Where alloc's caller finds its bytes, for an object at offset obj. */
  function Pointer(obj: nat, align: nat): nat { obj + ObjectStart(align) }

  /** The header before a pointer: sixteen bytes back, down to a block. */
  function HeaderOf(ptr: nat): nat
    requires ptr >= 16
  {
    (ptr - 16) / 512 * 512
  }

  function SuperblockOf(ptr: nat, fp: nat, idx: nat): int
    requires ptr >= 16
  {
    HeaderOf(ptr) - idx * fp - 512
  }

  /** From the pointer alloc returned: the object's header, its superblock, the promised
      alignment, and room for the bytes asked for inside the object. */
  lemma PointerRoundTrip(sb: nat, idx: nat, fp: nat, align: nat, sz: nat)
    requires sb % 512 == 0 && fp % 512 == 0 && ValidAlign(align) && TrueFootprint(align, sz) <= fp
    ensures var obj := sb + 512 + idx * fp; var ptr := Pointer(obj, align);
      && HeaderOf(ptr) == obj && SuperblockOf(ptr, fp, idx) == sb
      && ptr % align == 0
      && obj + 16 <= ptr && ptr + sz <= obj + fp
  {
    hide ObjectStart, ValidAlign, HeaderOf;
    var obj := sb + 512 + idx * fp;
    Blocks(idx, fp);
    BlockSum(sb, idx * fp);
    HeaderBack(obj, align);
    StartBounds(align);
    RoundUp(ObjectStart(align) + sz);
  }

  lemma BlockSum(a: nat, b: nat)
    requires a % 512 == 0 && b % 512 == 0
    ensures (a + 512 + b) % 512 == 0
  {
  }

  lemma StartBounds(align: nat)
    requires ValidAlign(align)
    ensures 16 <= ObjectStart(align) <= 512
  {
  }

  lemma Blocks(idx: nat, fp: nat)
    requires fp % 512 == 0
    ensures idx * fp % 512 == 0 && idx * fp >= 0
  {
    var q := fp / 512;
    assert idx * fp == idx * q * 512;
  }

  lemma HeaderBack(obj: nat, align: nat)
    requires obj % 512 == 0 && ValidAlign(align)
    ensures HeaderOf(Pointer(obj, align)) == obj && Pointer(obj, align) % align == 0
  {
    assert 16 <= ObjectStart(align) <= 512;
    AlignDivides(obj, align);
    hide ObjectStart, ValidAlign;
    var q := obj / 512;
    assert (512 * q + (ObjectStart(align) - 16)) / 512 == q;
  }

  lemma AlignDivides(obj: nat, align: nat)
    requires obj % 512 == 0 && ValidAlign(align)
    ensures (obj + ObjectStart(align)) % align == 0
  {
    var k, j := PerBlock(align), if align <= 16 then PerHeader(align) else 1;
    var q := obj / 512;
    Distribute(align, k, q, j);
    MultipleMod(align, k * q + j);
  }

  /** How many times an alignment goes into a block, and into a header. */
  function PerBlock(align: nat): (k: nat)
    requires ValidAlign(align)
    ensures align * k == 512
  {
    if align == 1 then 512 else if align == 2 then 256 else if align == 4 then 128 else if align == 8 then 64
    else if align == 16 then 32 else if align == 32 then 16 else if align == 64 then 8 else if align == 128 then 4
    else if align == 256 then 2 else 1
  }

  function PerHeader(align: nat): (k: nat)
    requires ValidAlign(align) && align <= 16
    ensures align * k == 16
  {
    if align == 1 then 16 else if align == 2 then 8 else if align == 4 then 4 else if align == 8 then 2 else 1
  }

  lemma Distribute(a: nat, k: nat, q: nat, j: nat)
    ensures a * k * q + a * j == a * (k * q + j)
  {
  }

  lemma {:induction false} MultipleMod(a: nat, b: nat)
    requires a > 0
    ensures (a * b) % a == 0
  {
    if b > 0 {
      MultipleMod(a, b - 1);
      assert a * b == a * (b - 1) + a;
      assert (a * (b - 1) + a) % a == (a * (b - 1)) % a by { AddMod(a * (b - 1), a); }
    }
  }

  lemma AddMod(x: nat, a: nat)
    requires a > 0
    ensures (x + a) % a == x % a
  {
    var q, r := x / a, x % a;
    assert x + a == a * (q + 1) + r;
    assert (x + a) / a == q + 1 by { DivUnique(x + a, a, q + 1, r); }
  }

  lemma DivUnique(x: nat, a: nat, q: nat, r: nat)
    requires a > 0 && x == a * q + r && r < a
    ensures x / a == q && x % a == r
  {
    var p := x / a;
    assert x == a * p + x % a;
    Spread(a, p + 1, q);
    Spread(a, q + 1, p);
    assert a * (p + 1) == a * p + a && a * (q + 1) == a * q + a;
  }

  lemma Spread(a: nat, b: nat, c: nat)
    ensures b <= c ==> a * b <= a * c
  {
    if b <= c { assert a * c == a * b + a * (c - b); }
  }
}
