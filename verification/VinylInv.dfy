/** The invariant that ties meta, cache lines, data objects and log together, and
    the small changes that keep it. */
module VinylInv {
  import opened Basics
  import opened VinylTypes
  import opened VinylStep

  // ----- the invariant -----------------------------------------------------------------

  /** A buffer against the record of its key. Unless held for modify it is an exact
      copy of the committed pair in the tightest size class. */
  ghost predicate BufOk(sizes: seq<nat>, s: Store, k: Key, b: Buf, ref: int)
    requires ValidSizes(sizes)
  {
    && ref >= -1 && k in s.recs && b.key == k && b.szc < |sizes| && |b.val| == sizes[b.szc]
    && (ref >= 0 ==>
          && Stored(s, k) && b.info == s.recs[k].info && b.ctl == Pair(true, b.info.valSz)
          && b.info.valSz <= ValMax(sizes) && b.szc == Szc(sizes, b.info.valSz)
          && b.val[..b.info.valSz] == Val(s, k))
    && (ref < 0 ==> b.ctl == if Stored(s, k) then Pair(true, s.recs[k].info.valSz) else Creating)
  }

  ghost predicate LineOk(sizes: seq<nat>, s: Store, x: Line)
    requires ValidSizes(sizes)
  {
    && x.ver < 0x1_0000_0000
    && match x.key
       case Some(k) => x.buf.Some? && BufOk(sizes, s, k, x.buf.value, x.ref)
       case None => x.buf.None? && x.ref == 0
  }

  /** Lines and cached keys point at each other. */
  ghost predicate PtrOk(c: Cache) {
    && (forall k | k in c.at :: c.at[k] < |c.lines| && c.lines[c.at[k]].key == Some(k))
    && (forall l | 0 <= l < |c.lines| && c.lines[l].key.Some? ::
          c.lines[l].key.value in c.at && c.at[c.lines[l].key.value] == l)
  }

  /** Cached keys exist, and a key being created is cached and held for modify. */
  ghost predicate KeyOk(s: Store, c: Cache, k: Key) {
    && (k in c.at ==> k in s.recs)
    && (k in s.recs && !Stored(s, k) ==> k in c.at && LineAt(c, c.at[k]).ref == -1)
  }

  ghost predicate AddrOk(c: Cache) {
    forall i, j | 0 <= i < j < |c.lines| && c.lines[i].buf.Some? && c.lines[j].buf.Some? ::
      c.lines[i].buf.value.addr != c.lines[j].buf.value.addr
  }

  /** The eviction sequence holds every line once. */
  ghost predicate OrderOk(c: Cache) {
    && (forall l: nat :: l in c.order <==> l < |c.lines|)
    && NoRepeats(c.order)
  }

  predicate NoRepeats(order: seq<nat>) {
    forall i, j | 0 <= i < j < |order| :: order[i] != order[j]
  }

  ghost predicate LinesOk(sizes: seq<nat>, s: Store, c: Cache)
    requires ValidSizes(sizes)
  {
    forall l | 0 <= l < |c.lines| :: LineOk(sizes, s, c.lines[l])
  }

  ghost predicate CacheOk(sizes: seq<nat>, s: Store, c: Cache)
    requires ValidSizes(sizes)
  {
    && PtrOk(c) && AddrOk(c) && OrderOk(c) && LinesOk(sizes, s, c)
    && (forall k {:trigger k in c.at} {:trigger KeyOk(s, c, k)} :: KeyOk(s, c, k))
  }

  ghost predicate Inv(v: Vinyl) {
    ValidSizes(v.sizes) && StoreOk(v.sizes, v.store) && CacheOk(v.sizes, v.store, v.cache)
  }

  /** An address data_alloc may return: no live object has it. */
  ghost predicate FreshAddr(c: Cache, addr: nat) {
    forall l | 0 <= l < |c.lines| && c.lines[l].buf.Some? :: c.lines[l].buf.value.addr != addr
  }

  /** An address data_alloc may return after an eviction: the victim's object has been
      freed, so its address may come back. */
  ghost predicate FreshAfterEvict(c: Cache, addr: nat) {
    FreshAddr(Drop(c, Victim(c.lines, c.order)), addr)
  }

  /** What the allocator owes an item: an address for each object the item allocates,
      free at the moment it is allocated. An acquire or a fetch that evicts allocates
      afterwards; a move allocates before it evicts; a pair that changes its size class
      gets the new object before the old one is freed. */
  ghost predicate AcquireAddr(v: Vinyl, f: Flags, key: Key, valMax: nat, addr: nat) {
    && (AcquireEvicts(v, f, key, valMax) ==> FreshAfterEvict(v.cache, addr))
    && (AcquireResizes(v, f, key, valMax) ==> FreshAddr(v.cache, addr))
  }

  ghost predicate ReleaseAddr(v: Vinyl, f: Flags, l: nat, addr: nat) {
    Refits(v, f, l) ==> FreshAddr(v.cache, addr)
  }

  ghost predicate FetchAddr(v: Vinyl, key: Key, addr: nat) {
    FetchEvicts(v, key) ==> FreshAfterEvict(v.cache, addr)
  }

  ghost predicate MoveAddr(v: Vinyl, src: Key, dst: Key, addr: nat) {
    MoveEvicts(v, src, dst) ==> FreshAddr(v.cache, addr)
  }

  ghost predicate Evictable(c: Cache) {
    exists l :: 0 <= l < |c.lines| && c.lines[l].ref == 0
  }

  /** Two stores tell the same about every key outside ks. */
  ghost predicate Agree(s: Store, s': Store, ks: set<Key>) {
    forall k | k !in ks ::
      && (k in s.recs <==> k in s'.recs)
      && (k in s.recs ==> s'.recs[k] == s.recs[k])
      && (Stored(s, k) ==> Val(s', k) == Val(s, k))
  }

  // ----- frames ---------------------------------------------------------------------------

  lemma LineFrame(sizes: seq<nat>, s: Store, s': Store, ks: set<Key>, x: Line)
    requires ValidSizes(sizes) && Agree(s, s', ks) && LineOk(sizes, s, x)
    requires x.key.Some? ==> x.key.value !in ks
    ensures LineOk(sizes, s', x)
  {
  }

  /** Replaces the line of a key, together with what the store says about that key. */
  lemma PutOk(sizes: seq<nat>, s: Store, s': Store, c: Cache, l: nat, x: Line)
    requires ValidSizes(sizes) && CacheOk(sizes, s, c) && l < |c.lines|
    requires x.key.Some? && c.lines[l].key == x.key && Agree(s, s', {x.key.value})
    requires LineOk(sizes, s', x) && (!Stored(s', x.key.value) ==> x.ref == -1)
    requires x.buf.value.addr == BufAt(c, l).addr || FreshAddr(c, x.buf.value.addr)
    ensures CacheOk(sizes, s', Put(c, l, x))
  {
    hide LineOk;
    var c' := Put(c, l, x);
    assert LinesOk(sizes, s', c') by {
      forall i | 0 <= i < |c.lines|
        ensures LineOk(sizes, s', c'.lines[i])
      {
        if i != l { LineFrame(sizes, s, s', {x.key.value}, c.lines[i]); }
      }
    }
    assert c.lines[l].buf.Some? by { KeyedHasBuf(sizes, s, c, l); }
    assert x.key.value in s'.recs by { LineKeyed(sizes, s', x); }
    forall k
      ensures KeyOk(s', c', k)
    {
      assert KeyOk(s, c, k);
    }
  }

  lemma LineKeyed(sizes: seq<nat>, s: Store, x: Line)
    requires ValidSizes(sizes) && LineOk(sizes, s, x) && x.key.Some?
    ensures x.buf.Some? && x.key.value in s.recs
  {
  }

  lemma KeyedHasBuf(sizes: seq<nat>, s: Store, c: Cache, l: nat)
    requires ValidSizes(sizes) && LinesOk(sizes, s, c) && l < |c.lines| && c.lines[l].key.Some?
    ensures c.lines[l].buf.Some? && BufOk(sizes, s, c.lines[l].key.value, c.lines[l].buf.value, c.lines[l].ref)
    ensures c.lines[l].ver < 0x1_0000_0000
  {
  }

  /** Empties the line of a key that is stored or gone afterwards. */
  lemma DropOk(sizes: seq<nat>, s: Store, s': Store, c: Cache, l: nat)
    requires ValidSizes(sizes) && CacheOk(sizes, s, c) && l < |c.lines|
    requires match c.lines[l].key
             case Some(k) => Agree(s, s', {k}) && (k in s'.recs ==> Stored(s', k))
             case None => s' == s
    ensures CacheOk(sizes, s', Drop(c, l))
    ensures Drop(c, l).lines[l].key == None && Drop(c, l).lines[l].buf == None
  {
    var c' := Drop(c, l);
    DropShape(c, l);
    var ks := match c.lines[l].key case Some(k) => {k} case None => {};
    assert LinesOk(sizes, s', c') by {
      hide LineOk;
      forall i | 0 <= i < |c.lines|
        ensures LineOk(sizes, s', c'.lines[i])
      {
        if i == l {
          EmptyOk(sizes, s', c'.lines[l]);
        } else {
          LineFrame(sizes, s, s', ks, c.lines[i]);
        }
      }
    }
    hide LineOk, PtrOk, AddrOk, OrderOk, LinesOk;
    forall k
      ensures KeyOk(s', c', k)
    {
      assert KeyOk(s, c, k);
      if k in c.at { PointsAt(c, k, l); }
    }
  }

  lemma PointsAt(c: Cache, k: Key, l: nat)
    requires PtrOk(c) && k in c.at
    ensures c.at[k] < |c.lines| && c.lines[c.at[k]].key == Some(k)
  {
  }

  lemma DropShape(c: Cache, l: nat)
    requires PtrOk(c) && AddrOk(c) && OrderOk(c) && l < |c.lines|
    ensures PtrOk(Drop(c, l)) && AddrOk(Drop(c, l)) && OrderOk(Drop(c, l))
  {
  }

  lemma InstallShape(c: Cache, l: nat, key: Key, b: Buf, ref: int)
    requires PtrOk(c) && AddrOk(c) && OrderOk(c) && l < |c.lines| && c.lines[l].key.None? && c.lines[l].buf.None?
    requires key !in c.at && FreshAddr(c, b.addr)
    ensures var c' := Install(c, l, key, b, ref); PtrOk(c') && AddrOk(c') && OrderOk(c')
  {
  }

  lemma EmptyOk(sizes: seq<nat>, s: Store, x: Line)
    requires ValidSizes(sizes) && x.key.None? && x.buf.None? && x.ref == 0 && x.ver < 0x1_0000_0000
    ensures LineOk(sizes, s, x)
  {
  }

  /** Fills an empty line with a key that is not cached. */
  lemma InstallOk(sizes: seq<nat>, s: Store, s': Store, c: Cache, l: nat, key: Key, b: Buf, ref: int)
    requires ValidSizes(sizes) && CacheOk(sizes, s, c) && l < |c.lines| && c.lines[l].key.None? && c.lines[l].buf.None?
    requires key !in c.at && Agree(s, s', {key}) && BufOk(sizes, s', key, b, ref)
    requires FreshAddr(c, b.addr)
    ensures CacheOk(sizes, s', Install(c, l, key, b, ref))
  {
    hide LineOk, PtrOk, AddrOk, OrderOk, BufOk;
    var c' := Install(c, l, key, b, ref);
    InstallShape(c, l, key, b, ref);
    BufOkCreating(sizes, s', key, b, ref);
    FilledOk(sizes, s', c'.lines[l]);
    forall i | 0 <= i < |c.lines|
      ensures LineOk(sizes, s', c'.lines[i])
    {
      if i != l {
        NotCached(c, i, key);
        LineFrame(sizes, s, s', {key}, c.lines[i]);
      }
    }
    hide LinesOk;
    forall k
      ensures KeyOk(s', c', k)
    {
      assert KeyOk(s, c, k);
      if k in c.at { PointsAt(c, k, l); }
    }
  }

  lemma NotCached(c: Cache, i: nat, key: Key)
    requires PtrOk(c) && i < |c.lines| && key !in c.at
    ensures c.lines[i].key != Some(key)
  {
  }

  lemma FilledOk(sizes: seq<nat>, s: Store, x: Line)
    requires ValidSizes(sizes) && x.key.Some? && x.buf.Some? && BufOk(sizes, s, x.key.value, x.buf.value, x.ref)
    requires x.ver < 0x1_0000_0000
    ensures LineOk(sizes, s, x)
  {
  }

  lemma BufOkCreating(sizes: seq<nat>, s: Store, k: Key, b: Buf, ref: int)
    requires ValidSizes(sizes) && BufOk(sizes, s, k, b, ref)
    ensures k in s.recs && (!Stored(s, k) ==> ref == -1)
  {
  }

  lemma {:induction false} WithoutDistinct(order: seq<nat>, l: nat)
    requires NoRepeats(order)
    ensures NoRepeats(Without(order, l))
  {
    if order != [] {
      WithoutDistinct(order[1..], l);
      var rest := Without(order[1..], l);
      assert forall j | 0 <= j < |rest| :: rest[j] in order[1..];
    }
  }

  /** Where a line goes in the eviction sequence: to the end that was asked for, with
      every other line keeping its turn. */
  lemma {:induction false} PrioritizePlaces(c: Cache, l: nat, p: Prio)
    ensures var o := Prioritize(c, l, p).order;
      && (p.Lru? ==> o != [] && o[0] == l) && (p.Mru? ==> o != [] && o[|o| - 1] == l)
      && Without(o, l) == Without(c.order, l)
  {
    WithoutTwice(c.order, l);
    WithoutAppend(Without(c.order, l), [l], l);
    WithoutAppend([l], Without(c.order, l), l);
    assert Without([l], l) == [];
  }

  lemma {:induction false} WithoutTwice(order: seq<nat>, l: nat)
    ensures Without(Without(order, l), l) == Without(order, l)
  {
    if order != [] {
      WithoutTwice(order[1..], l);
      var one := [order[0]];
      assert one[1..] == [] && Without(one, l) == if order[0] == l then [] else one;
      WithoutAppend(if order[0] == l then [] else one, Without(order[1..], l), l);
      assert Without(order, l) == (if order[0] == l then [] else one) + Without(order[1..], l);
    }
  }

  lemma {:induction false} WithoutAppend(a: seq<nat>, b: seq<nat>, l: nat)
    ensures Without(a + b, l) == Without(a, l) + Without(b, l)
  {
    if a == [] {
      assert a + b == b;
    } else {
      assert (a + b)[1..] == a[1..] + b;
      WithoutAppend(a[1..], b, l);
    }
  }

  lemma OrderMoves(c: Cache, l: nat, p: Prio)
    requires OrderOk(c) && l < |c.lines|
    ensures OrderOk(Prioritize(c, l, p))
  {
    WithoutDistinct(c.order, l);
    var rest := Without(c.order, l);
    assert forall j | 0 <= j < |rest| :: rest[j] in rest;
  }

  lemma PrioritizeOk(sizes: seq<nat>, s: Store, c: Cache, l: nat, p: Prio)
    requires ValidSizes(sizes) && CacheOk(sizes, s, c) && l < |c.lines|
    ensures CacheOk(sizes, s, Prioritize(c, l, p))
  {
    hide LinesOk;
    OrderMoves(c, l, p);
    forall k
      ensures KeyOk(s, Prioritize(c, l, p), k)
    {
      assert KeyOk(s, c, k);
    }
    assert LinesOk(sizes, s, Prioritize(c, l, p)) by { SameLines(sizes, s, c, Prioritize(c, l, p)); }
  }

  lemma SameLines(sizes: seq<nat>, s: Store, c: Cache, c': Cache)
    requires ValidSizes(sizes) && LinesOk(sizes, s, c) && c'.lines == c.lines
    ensures LinesOk(sizes, s, c')
  {
  }

  /** Removes an uncached key. */
  lemma UncachedOk(sizes: seq<nat>, s: Store, s': Store, c: Cache, key: Key)
    requires ValidSizes(sizes) && CacheOk(sizes, s, c)
    requires key !in c.at && Agree(s, s', {key}) && (key in s'.recs ==> Stored(s', key))
    ensures CacheOk(sizes, s', c)
  {
    forall i | 0 <= i < |c.lines|
      ensures LineOk(sizes, s', c.lines[i])
    {
      LineFrame(sizes, s, s', {key}, c.lines[i]);
    }
    hide LineOk;
    forall k
      ensures KeyOk(s', c, k)
    {
      assert KeyOk(s, c, k);
    }
  }

  lemma RenameShape(c: Cache, l: nat, src: Key, dst: Key, x: Line)
    requires PtrOk(c) && AddrOk(c) && OrderOk(c) && src in c.at && c.at[src] == l && dst !in c.at && src != dst
    requires x.key == Some(dst) && x.buf.Some? && c.lines[l].buf.Some? && x.buf.value.addr == c.lines[l].buf.value.addr
    ensures var c' := Put(c, l, x).(at := (c.at - {src})[dst := l]); PtrOk(c') && AddrOk(c') && OrderOk(c')
  {
  }

  /** Gives a cached key's line to another key that is not cached. */
  lemma RenameOk(sizes: seq<nat>, s: Store, s': Store, c: Cache, l: nat, src: Key, dst: Key, x: Line)
    requires ValidSizes(sizes) && CacheOk(sizes, s, c) && src in c.at && c.at[src] == l && dst !in c.at && src != dst
    requires Agree(s, s', {src, dst}) && src !in s'.recs && Stored(s', dst)
    requires x.key == Some(dst) && LineOk(sizes, s', x) && x.buf.value.addr == BufAt(c, l).addr
    ensures CacheOk(sizes, s', Put(c, l, x).(at := (c.at - {src})[dst := l]))
  {
    hide LineOk;
    var c' := Put(c, l, x).(at := (c.at - {src})[dst := l]);
    assert c.lines[l].buf.Some? by { KeyedHasBuf(sizes, s, c, l); }
    assert x.buf.Some? by { LineKeyed(sizes, s', x); }
    RenameShape(c, l, src, dst, x);
    assert LinesOk(sizes, s', c') by {
      forall i | 0 <= i < |c.lines|
        ensures LineOk(sizes, s', c'.lines[i])
      {
        if i != l { LineFrame(sizes, s, s', {src, dst}, c.lines[i]); }
      }
    }
    hide LinesOk, AddrOk, OrderOk;
    forall k
      ensures KeyOk(s', c', k)
    {
      assert KeyOk(s, c, k);
    }
  }

  /** Evicting the victim and loading an uncached pair in its place. */
  lemma LoadOk(sizes: seq<nat>, s: Store, s': Store, c: Cache, key: Key, b: Buf, ref: int, p: Prio)
    requires ValidSizes(sizes) && CacheOk(sizes, s, c) && Evictable(c)
    requires key !in c.at && Agree(s, s', {key}) && BufOk(sizes, s', key, b, ref)
    requires FreshAfterEvict(c, b.addr)
    ensures CacheOk(sizes, s', Load(c, key, b, ref, p))
  {
    hide LinesOk, BufOk;
    var l := Victim(c.lines, c.order);
    VictimStored(sizes, s, c);
    assert Agree(s, s, {KeyAt(c, l)});
    DropOk(sizes, s, s, c, l);
    InstallOk(sizes, s, s', Drop(c, l), l, key, b, ref);
    PrioritizeOk(sizes, s', Install(Drop(c, l), l, key, b, ref), l, p);
  }

  /** What was free before an eviction is free after it. */
  lemma FreshStays(c: Cache, addr: nat)
    requires FreshAddr(c, addr)
    ensures FreshAfterEvict(c, addr)
  {
  }

  /** The address of the object an eviction frees may be handed out again. */
  lemma VictimFreed(sizes: seq<nat>, s: Store, c: Cache)
    requires ValidSizes(sizes) && CacheOk(sizes, s, c) && Evictable(c)
    ensures var x := c.lines[Victim(c.lines, c.order)]; x.buf.Some? ==> FreshAfterEvict(c, x.buf.value.addr)
  {
    hide LinesOk;
    VictimStored(sizes, s, c);
  }

  /** The victim exists, is unheld and, if it caches a key, that key is stored. */
  lemma VictimStored(sizes: seq<nat>, s: Store, c: Cache)
    requires ValidSizes(sizes) && CacheOk(sizes, s, c) && Evictable(c)
    ensures var l := Victim(c.lines, c.order);
      l < |c.lines| && c.lines[l].ref == 0 && (c.lines[l].key.Some? ==> Stored(s, c.lines[l].key.value))
  {
    hide LinesOk;
    var x :| 0 <= x < |c.lines| && c.lines[x].ref == 0;
    assert x in c.order;
    var l := Victim(c.lines, c.order);
    if c.lines[l].key.Some? { KeyedHasBuf(sizes, s, c, l); }
  }
}
