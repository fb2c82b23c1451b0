/** The three forms of the 64-bit hash: scalar, four-lane and copying. */
module HashVariants {

  const C1: bv64 := 11400714785074694791
  const C2: bv64 := 14029467366897019727
  const C3: bv64 := 1609587929392839161
  const C4: bv64 := 9650029242287828579
  const C5: bv64 := 2870177450012600261

  function Add(a: bv64, b: bv64): bv64 { a + b }
  function Sub(a: bv64, b: bv64): bv64 { a - b }
  function Mul(a: bv64, b: bv64): bv64 { a * b }
  function Xor(a: bv64, b: bv64): bv64 { a ^ b }
  function Rotl(x: bv64, r: nat): bv64
    requires 0 < r < 64
  {
    (x << r) | (x >> (64 - r))
  }

  // ----- memory ---------------------------------------------------------------------------------

  function Wide(b: bv8): bv64 { b as bv64 }
  function Narrow(w: bv64): bv8 { (w & 0xFF) as bv8 }

  /** A little-endian load of eight bytes. */
  function Load8(s: seq<bv8>, p: nat): bv64
    requires p + 8 <= |s|
  {
    Wide(s[p]) | (Wide(s[p + 1]) << 8) | (Wide(s[p + 2]) << 16) | (Wide(s[p + 3]) << 24)
    | (Wide(s[p + 4]) << 32) | (Wide(s[p + 5]) << 40) | (Wide(s[p + 6]) << 48) | (Wide(s[p + 7]) << 56)
  }

  function Load4(s: seq<bv8>, p: nat): bv64
    requires p + 4 <= |s|
  {
    Wide(s[p]) | (Wide(s[p + 1]) << 8) | (Wide(s[p + 2]) << 16) | (Wide(s[p + 3]) << 24)
  }

  /** The bytes a store of a word writes. */
  function Bytes8(w: bv64): seq<bv8> {
    [Narrow(w), Narrow(w >> 8), Narrow(w >> 16), Narrow(w >> 24),
     Narrow(w >> 32), Narrow(w >> 40), Narrow(w >> 48), Narrow(w >> 56)]
  }

  function Bytes4(w: bv64): seq<bv8> {
    [Narrow(w), Narrow(w >> 8), Narrow(w >> 16), Narrow(w >> 24)]
  }

  /** Storing what was loaded writes the bytes that were there. */
  lemma StoreLoad8(s: seq<bv8>, p: nat)
    requires p + 8 <= |s|
    ensures Bytes8(Load8(s, p)) == s[p..p + 8]
  {
  }

  lemma StoreLoad4(s: seq<bv8>, p: nat)
    requires p + 4 <= |s|
    ensures Bytes4(Load4(s, p)) == s[p..p + 4]
  {
  }

  // ----- the reference ----------------------------------------------------------------------------

  datatype Lanes = Lanes(w: bv64, x: bv64, y: bv64, z: bv64)

  function Start(seed: bv64): Lanes {
    Lanes(Add(seed, Add(C1, C2)), Add(seed, C2), seed, Sub(seed, C1))
  }

  /** One lane takes in one word. */
  function Round(acc: bv64, input: bv64): bv64 {
    Mul(Rotl(Add(acc, Mul(input, C2)), 31), C1)
  }

  function Stripe(l: Lanes, s: seq<bv8>, p: nat): Lanes
    requires p + 32 <= |s|
  {
    Lanes(Round(l.w, Load8(s, p)), Round(l.x, Load8(s, p + 8)),
          Round(l.y, Load8(s, p + 16)), Round(l.z, Load8(s, p + 24)))
  }

  /** All complete blocks of 32 from p on. */
  function Stripes(l: Lanes, s: seq<bv8>, p: nat): Lanes
    requires p <= |s|
    decreases |s| - p
  {
    if p + 32 <= |s| then Stripes(Stripe(l, s, p), s, p + 32) else l
  }

  function Scramble(w: bv64): bv64 {
    Mul(Rotl(Mul(w, C2), 31), C1)
  }

  function Merge(h: bv64, w: bv64): bv64 {
    Add(Mul(Xor(h, Scramble(w)), C1), C4)
  }

  function Fold(l: Lanes): bv64 {
    var h := Add(Add(Add(Rotl(l.w, 1), Rotl(l.x, 7)), Rotl(l.y, 12)), Rotl(l.z, 18));
    Merge(Merge(Merge(Merge(h, l.w), l.x), l.y), l.z)
  }

  function TakeWord(h: bv64, w: bv64): bv64 { Add(Mul(Rotl(Xor(h, Scramble(w)), 27), C1), C4) }
  function TakeHalf(h: bv64, w: bv64): bv64 { Add(Mul(Rotl(Xor(h, Mul(w, C1)), 23), C2), C3) }
  function TakeByte(h: bv64, b: bv8): bv64 { Mul(Rotl(Xor(h, Mul(Wide(b), C5)), 11), C1) }

  function Words(h: bv64, s: seq<bv8>, p: nat): bv64
    requires p <= |s|
    decreases |s| - p
  {
    if p + 8 <= |s| then Words(TakeWord(h, Load8(s, p)), s, p + 8) else h
  }

  function Tail(h: bv64, s: seq<bv8>, p: nat): bv64
    requires p <= |s|
    decreases |s| - p
  {
    if p < |s| then Tail(TakeByte(h, s[p]), s, p + 1) else h
  }

  function Avalanche(h: bv64): bv64 {
    var a := Mul(Xor(h, h >> 33), C2);
    var b := Mul(Xor(a, a >> 29), C3);
    Xor(b, b >> 32)
  }

  /** Where the whole stripes end, and the whole words after them. */
  function StripesEnd(n: nat): (p: nat)
    ensures p <= n < p + 32
  {
    if n < 32 then 0 else 32 + StripesEnd(n - 32)
  }

  function WordsEnd(p: nat, n: nat): (q: nat)
    requires p <= n
    ensures p <= q <= n < q + 8
    decreases n - p
  {
    if p + 8 <= n then WordsEnd(p + 8, n) else p
  }

  /** What comes after the stripes: length, words, a half word, single bytes, mixing. */
  function Finish(h0: bv64, s: seq<bv8>, p: nat): bv64
    requires p <= |s|
  {
    var h := Words(h0, s, p);
    var q := WordsEnd(p, |s|);
    if q + 4 <= |s| then Avalanche(Tail(TakeHalf(h, Load4(s, q)), s, q + 4)) else Avalanche(Tail(h, s, q))
  }

  function Head(seed: bv64, s: seq<bv8>): bv64 {
    if |s| < 32 then Add(seed, C5) else Fold(Stripes(Start(seed), s, 0))
  }

  function Length(n: nat): bv64
    requires n < 0x1_0000_0000_0000_0000
  {
    n as bv64
  }

  function Hash(seed: bv64, s: seq<bv8>): bv64
    requires |s| < 0x1_0000_0000_0000_0000
  {
    Finish(Add(Head(seed, s), Length(|s|)), s, StripesEnd(|s|))
  }

  // ----- the scalar form ----------------------------------------------------------------------------

  method HashGeneric(seed: bv64, s: seq<bv8>) returns (h: bv64)
    requires |s| < 0x1_0000_0000_0000_0000
    ensures h == Hash(seed, s)
  {
    hide Add, Sub, Mul, Xor, Rotl, Load8, Fold, Length, Finish;
    var p := 0;
    if |s| < 32 {
      h := Add(seed, C5);
    } else {
      var w, x, y, z := Add(seed, Add(C1, C2)), Add(seed, C2), seed, Sub(seed, C1);
      while p + 32 <= |s|
        invariant 0 <= p <= |s| && p + StripesEnd(|s| - p) == StripesEnd(|s|)
        invariant Stripes(Lanes(w, x, y, z), s, p) == Stripes(Start(seed), s, 0)
      {
        w := Round(w, Load8(s, p));
        x := Round(x, Load8(s, p + 8));
        y := Round(y, Load8(s, p + 16));
        z := Round(z, Load8(s, p + 24));
        p := p + 32;
      }
      h := Fold(Lanes(w, x, y, z));
    }
    h := Add(h, Length(|s|));
    h := FinishScalar(h, s, p);
  }

  method FinishScalar(h0: bv64, s: seq<bv8>, p0: nat) returns (h: bv64)
    requires p0 <= |s|
    ensures h == Finish(h0, s, p0)
  {
    hide Load8, Load4, TakeWord, TakeHalf, TakeByte, Avalanche;
    h := h0;
    var p := p0;
    while p + 8 <= |s|
      invariant p0 <= p <= |s| && WordsEnd(p, |s|) == WordsEnd(p0, |s|) && Words(h, s, p) == Words(h0, s, p0)
    {
      h := TakeWord(h, Load8(s, p));
      p := p + 8;
    }
    if p + 4 <= |s| {
      h := TakeHalf(h, Load4(s, p));
      p := p + 4;
    }
    ghost var g, q := h, p;
    while p < |s|
      invariant q <= p <= |s| && Tail(h, s, p) == Tail(g, s, q)
    {
      h := TakeByte(h, s[p]);
      p := p + 1;
    }
    h := Avalanche(h);
  }

  // ----- the four-lane form ---------------------------------------------------------------------------

  function LoadV(s: seq<bv8>, p: nat): Lanes
    requires p + 32 <= |s|
  {
    Lanes(Load8(s, p), Load8(s, p + 8), Load8(s, p + 16), Load8(s, p + 24))
  }

  function Bcast(a: bv64): Lanes { Lanes(a, a, a, a) }
  function AddV(a: Lanes, b: Lanes): Lanes { Lanes(Add(a.w, b.w), Add(a.x, b.x), Add(a.y, b.y), Add(a.z, b.z)) }
  function MulV(a: Lanes, b: Lanes): Lanes { Lanes(Mul(a.w, b.w), Mul(a.x, b.x), Mul(a.y, b.y), Mul(a.z, b.z)) }
  function RolV(a: Lanes, r: nat): Lanes
    requires 0 < r < 64
  {
    Lanes(Rotl(a.w, r), Rotl(a.x, r), Rotl(a.y, r), Rotl(a.z, r))
  }

  /** The vector start adds 0 and 0-C1 where the scalar form uses the seed and subtracts. */
  lemma StartV(seed: bv64)
    ensures AddV(Bcast(seed), Lanes(Add(C1, C2), C2, 0, Sub(0, C1))) == Start(seed)
  {
  }

  method HashLanes(seed: bv64, s: seq<bv8>) returns (h: bv64)
    requires |s| < 0x1_0000_0000_0000_0000
    ensures h == Hash(seed, s)
  {
    StartV(seed);
    hide Add, Sub, Mul, Xor, Rotl, Load8, Length, Finish;
    var p := 0;
    if |s| < 32 {
      h := Add(seed, C5);
    } else {
      var state := AddV(Bcast(seed), Lanes(Add(C1, C2), C2, 0, Sub(0, C1)));
      while p + 32 <= |s|
        invariant 0 <= p <= |s| && p + StripesEnd(|s| - p) == StripesEnd(|s|)
        invariant Stripes(state, s, p) == Stripes(Start(seed), s, 0)
      {
        var input := MulV(LoadV(s, p), Bcast(C2));
        state := MulV(RolV(AddV(state, input), 31), Bcast(C1));
        p := p + 32;
      }
      h := Add(Add(Add(Rotl(state.w, 1), Rotl(state.x, 7)), Rotl(state.y, 12)), Rotl(state.z, 18));
      var mixed := MulV(RolV(MulV(state, Bcast(C2)), 31), Bcast(C1));
      h := Add(Mul(Xor(h, mixed.w), C1), C4);
      h := Add(Mul(Xor(h, mixed.x), C1), C4);
      h := Add(Mul(Xor(h, mixed.y), C1), C4);
      h := Add(Mul(Xor(h, mixed.z), C1), C4);
    }
    h := Add(h, Length(|s|));
    h := FinishScalar(h, s, p);
  }

  // ----- the copying form -------------------------------------------------------------------------------

  method Store(dst: array<bv8>, q: nat, bytes: seq<bv8>)
    requires q + |bytes| <= dst.Length
    modifies dst
    ensures dst[..] == old(dst[..q]) + bytes + old(dst[q + |bytes|..])
  {
    var i := 0;
    while i < |bytes|
      invariant 0 <= i <= |bytes|
      invariant forall k | 0 <= k < dst.Length :: dst[k] == if q <= k < q + i then bytes[k - q] else old(dst[k])
    {
      dst[q + i] := bytes[i];
      i := i + 1;
    }
  }

  /** The first n bytes of dst are those of s and the rest is as it was. */
  ghost predicate Copied(now: seq<bv8>, was: seq<bv8>, s: seq<bv8>, n: nat) {
    n <= |s| && n <= |now| == |was| && now[..n] == s[..n] && now[n..] == was[n..]
  }

  lemma CopyMore(before: seq<bv8>, after: seq<bv8>, was: seq<bv8>, s: seq<bv8>, n: nat, bytes: seq<bv8>)
    requires Copied(before, was, s, n) && n + |bytes| <= |s| && n + |bytes| <= |was| && bytes == s[n..n + |bytes|]
    requires after == before[..n] + bytes + before[n + |bytes|..]
    ensures Copied(after, was, s, n + |bytes|)
  {
    var m := n + |bytes|;
    assert after[..m] == before[..n] + bytes == s[..n] + s[n..m] == s[..m];
    assert after[m..] == before[m..] == before[n..][|bytes|..] == was[n..][|bytes|..] == was[m..];
  }

  method StoreNext(dst: array<bv8>, s: seq<bv8>, n: nat, bytes: seq<bv8>, ghost was: seq<bv8>)
    requires Copied(dst[..], was, s, n) && n + |bytes| <= |s| <= dst.Length && bytes == s[n..n + |bytes|]
    modifies dst
    ensures Copied(dst[..], was, s, n + |bytes|)
  {
    ghost var before := dst[..];
    Store(dst, n, bytes);
    assert dst[..] == before[..n] + bytes + before[n + |bytes|..];
    CopyMore(before, dst[..], was, s, n, bytes);
  }

  method HashMemcpy(seed: bv64, dst: array<bv8>, s: seq<bv8>) returns (h: bv64)
    requires |s| < 0x1_0000_0000_0000_0000 && |s| <= dst.Length
    modifies dst
    ensures h == Hash(seed, s) && Copied(dst[..], old(dst[..]), s, |s|)
  {
    hide Add, Sub, Mul, Xor, Rotl, Load8, Load4, Bytes8, Bytes4, Fold, Length, Finish, Copied;
    ghost var was := dst[..];
    assert Copied(dst[..], was, s, 0) by { CopyNone(was, s); }
    var p := 0;
    if |s| < 32 {
      h := Add(seed, C5);
    } else {
      var w, x, y, z := Add(seed, Add(C1, C2)), Add(seed, C2), seed, Sub(seed, C1);
      while p + 32 <= |s|
        invariant 0 <= p <= |s| && p + StripesEnd(|s| - p) == StripesEnd(|s|)
        invariant Stripes(Lanes(w, x, y, z), s, p) == Stripes(Start(seed), s, 0)
        invariant Copied(dst[..], was, s, p)
      {
        var p0, p1, p2, p3 := Load8(s, p), Load8(s, p + 8), Load8(s, p + 16), Load8(s, p + 24);
        w, x, y, z := Round(w, p0), Round(x, p1), Round(y, p2), Round(z, p3);
        StoreWord(dst, s, p, p0, was);
        StoreWord(dst, s, p + 8, p1, was);
        StoreWord(dst, s, p + 16, p2, was);
        StoreWord(dst, s, p + 24, p3, was);
        p := p + 32;
      }
      h := Fold(Lanes(w, x, y, z));
    }
    h := Add(h, Length(|s|));
    h := FinishCopy(h, dst, s, p, was);
  }

  lemma CopyNone(was: seq<bv8>, s: seq<bv8>)
    ensures Copied(was, was, s, 0)
  {
  }

  method StoreWord(dst: array<bv8>, s: seq<bv8>, p: nat, w: bv64, ghost was: seq<bv8>)
    requires p + 8 <= |s| <= dst.Length && w == Load8(s, p) && Copied(dst[..], was, s, p)
    modifies dst
    ensures Copied(dst[..], was, s, p + 8)
  {
    StoreLoad8(s, p);
    hide Load8, Copied;
    StoreNext(dst, s, p, Bytes8(w), was);
  }

  method FinishCopy(h0: bv64, dst: array<bv8>, s: seq<bv8>, from: nat, ghost was: seq<bv8>) returns (h: bv64)
    requires from <= |s| <= dst.Length && Copied(dst[..], was, s, from)
    modifies dst
    ensures h == Finish(h0, s, from) && Copied(dst[..], was, s, |s|)
  {
    hide Load8, Load4, Bytes8, TakeWord, TakeHalf, TakeByte, Avalanche, Copied, Narrow, Wide;
    h := h0;
    var p := from;
    while p + 8 <= |s|
      invariant from <= p <= |s| && WordsEnd(p, |s|) == WordsEnd(from, |s|) && Words(h, s, p) == Words(h0, s, from)
      invariant Copied(dst[..], was, s, p)
    {
      var p0 := Load8(s, p);
      h := TakeWord(h, p0);
      StoreWord(dst, s, p, p0, was);
      p := p + 8;
    }
    if p + 4 <= |s| {
      var p0 := Load4(s, p);
      h := TakeHalf(h, p0);
      StoreLoad4(s, p);
      StoreNext(dst, s, p, Bytes4(p0), was);
      p := p + 4;
    }
    ghost var g, q := h, p;
    while p < |s|
      invariant q <= p <= |s| && Tail(h, s, p) == Tail(g, s, q)
      invariant Copied(dst[..], was, s, p)
    {
      var p0 := s[p];
      h := TakeByte(h, p0);
      StoreNext(dst, s, p, [p0], was);
      p := p + 1;
    }
    h := Avalanche(h);
  }
}
