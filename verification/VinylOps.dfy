/** Every request item keeps the invariant and does to the committed map what its
    name says. */
module VinylOps {
  import opened Basics
  import opened VinylTypes
  import opened VinylStep
  import opened VinylInv
  import opened VinylStore

  // ----- buffers -------------------------------------------------------------------------

  lemma ClassFits(sizes: seq<nat>, sz: nat)
    requires ValidSizes(sizes) && sz <= ValMax(sizes)
    ensures ClassOf(sizes, sz) == Szc(sizes, sz) < |sizes| && sz <= Room(sizes, ClassOf(sizes, sz)) <= ValMax(sizes)
  {
  }

  lemma ReadBufOk(v: Vinyl, key: Key, room: nat, addr: nat)
    requires Inv(v) && Stored(v.store, key) && v.store.recs[key].info.valSz <= room <= ValMax(v.sizes)
    ensures var b := ReadBuf(v, key, room, addr);
      && BufOk(v.sizes, v.store, key, b, -1)
      && b.info == v.store.recs[key].info && b.addr == addr
      && Front(b.val, b.info.valSz) == Val(v.store, key)
      && (room == b.info.valSz ==> BufOk(v.sizes, v.store, key, b, 0) && BufOk(v.sizes, v.store, key, b, 1))
  {
    hide CacheOk, BlockAt, Szc;
    assert RecOk(v.sizes, v.store, key);
    ClassFits(v.sizes, room);
  }

  lemma InvKnown(v: Vinyl, key: Key)
    requires Inv(v) && Stored(v.store, key)
    ensures v.store.recs[key].info.valSz == |Val(v.store, key)| <= ValMax(v.sizes)
  {
    hide CacheOk, BlockAt;
    assert RecOk(v.sizes, v.store, key);
  }

  /** What the invariant says about the line of a cached key. */
  lemma CachedKnown(v: Vinyl, key: Key)
    requires Inv(v) && key in v.cache.at
    ensures var l := v.cache.at[key];
      && l < |v.cache.lines| && v.cache.lines[l].key == Some(key) && key in v.store.recs
      && v.cache.lines[l].buf.Some? && BufOk(v.sizes, v.store, key, v.cache.lines[l].buf.value, v.cache.lines[l].ref)
      && (!Stored(v.store, key) ==> v.cache.lines[l].ref == -1)
      && v.cache.lines[l].ver < 0x1_0000_0000
  {
    hide StoreOk, AddrOk, OrderOk, BufOk;
    assert KeyOk(v.store, v.cache, key);
    KeyedHasBuf(v.sizes, v.store, v.cache, v.cache.at[key]);
  }

  lemma AgreeSelf(s: Store, ks: set<Key>)
    ensures Agree(s, s, ks)
  {
  }

  /** Replaces a cached key's line without touching the store. */
  lemma ReplaceOk(v: Vinyl, key: Key, x: Line)
    requires Inv(v) && key in v.cache.at && x.key == Some(key) && LineOk(v.sizes, v.store, x)
    requires !Stored(v.store, key) ==> x.ref == -1
    requires x.buf.value.addr == BufAt(v.cache, v.cache.at[key]).addr || FreshAddr(v.cache, x.buf.value.addr)
    ensures Inv(v.(cache := Put(v.cache, v.cache.at[key], x)))
  {
    hide CacheOk, StoreOk, LineOk, BufOk;
    CachedKnown(v, key);
    AgreeSelf(v.store, {key});
    PutOk(v.sizes, v.store, v.store, v.cache, v.cache.at[key], x);
  }

  lemma OrderedOk(v: Vinyl, l: nat, p: Prio)
    requires Inv(v) && l < |v.cache.lines|
    ensures Inv(v.(cache := Prioritize(v.cache, l, p)))
  {
    hide CacheOk, StoreOk;
    PrioritizeOk(v.sizes, v.store, v.cache, l, p);
  }

  // ----- ACQUIRE ----------------------------------------------------------------------------

  lemma AcquireReadCached(v: Vinyl, key: Key)
    requires Inv(v) && key in v.cache.at && LineAt(v.cache, v.cache.at[key]).ref >= 0
    ensures var l := v.cache.at[key]; var x := LineAt(v.cache, l);
      Inv(v.(cache := Put(v.cache, l, x.(ref := x.ref + 1))))
  {
    hide CacheOk, StoreOk, Szc, Val;
    CachedKnown(v, key);
    var x := LineAt(v.cache, v.cache.at[key]);
    hide Inv;
    ReplaceOk(v, key, x.(ref := x.ref + 1));
  }

  /** The buffer handed out for modify: the old value unless it is ignored, room for
      what was asked, zeros behind. */
  lemma ModifyBufOk(sizes: seq<nat>, s: Store, key: Key, b: Buf, ignore: bool, valMax: nat, addr: nat)
    requires ValidSizes(sizes) && BufOk(sizes, s, key, b, 0) && valMax <= ValMax(sizes)
    ensures var b0 := if ignore then b.(info := b.info.(valSz := 0)) else b;
      var b' := Resize(sizes, b0, ClassOf(sizes, Max(b0.info.valSz, valMax)), b0.info.valSz, addr);
      && BufOk(sizes, s, key, b', -1)
      && (b'.addr == b.addr || (b'.addr == addr && b'.szc != b.szc))
      && b'.szc == ClassOf(sizes, Max(b0.info.valSz, valMax))
      && valMax <= |b'.val| && b'.info == b0.info
      && (!ignore ==> Front(b'.val, b'.info.valSz) == Val(s, key))
  {
    hide Szc, Val;
    var b0 := if ignore then b.(info := b.info.(valSz := 0)) else b;
    ClassFits(sizes, Max(b0.info.valSz, valMax));
  }

  lemma AcquireCachedOk(v: Vinyl, f: Flags, key: Key, valMax: nat, addr: nat)
    requires Inv(v) && key in v.cache.at && valMax <= ValMax(v.sizes)
    requires Resizes(v, f, v.cache.at[key], valMax) ==> FreshAddr(v.cache, addr)
    ensures Inv(AcquireCached(v, f, v.cache.at[key], valMax, addr).v)
  {
    hide CacheOk, StoreOk, BufOk, Szc, Bump;
    CachedKnown(v, key);
    var l := v.cache.at[key];
    var x := LineAt(v.cache, l);
    if !f.modifying {
      if x.ref >= 0 { AcquireReadCached(v, key); }
    } else if x.ref == 0 && !f.excl {
      ModifyBufOk(v.sizes, v.store, key, BufAt(v.cache, l), f.ignore, valMax, addr);
      var b := if f.ignore then BufAt(v.cache, l).(info := BufAt(v.cache, l).info.(valSz := 0)) else BufAt(v.cache, l);
      var b' := Resize(v.sizes, b, ClassOf(v.sizes, Max(b.info.valSz, valMax)), b.info.valSz, addr);
      hide Resize, ClassOf, Inv, Prioritize;
      ReplaceOk(v, key, x.(buf := Some(b'), ver := Bump(x.ver), ref := -1));
      OrderedOk(v.(cache := SetLine(v.cache, l, b', Bump(x.ver), -1)), l, f.prio);
    }
  }

  lemma AcquireUncachedOk(v: Vinyl, f: Flags, key: Key, valMax: nat, addr: nat)
    requires Inv(v) && Stored(v.store, key) && key !in v.cache.at && Evictable(v.cache)
    requires FreshAfterEvict(v.cache, addr) && valMax <= ValMax(v.sizes)
    ensures Inv(AcquireUncached(v, f, key, valMax, addr))
  {
    hide CacheOk, StoreOk, Szc, BlockAt, Val, ReadBuf, Load;
    InvKnown(v, key);
    AgreeSelf(v.store, {key});
    var r := v.store.recs[key];
    if f.modifying && f.ignore {
      IgnoreBufOk(v, key, valMax, addr);
      var b0 := ReadBuf(v, key, valMax, addr);
      var b := b0.(info := r.info.(valSz := 0), val := Region(v.sizes, b0.szc, []));
      hide BufOk;
      LoadOk(v.sizes, v.store, v.store, v.cache, key, b, -1, f.prio);
    } else {
      var room := if f.modifying then Max(r.info.valSz, valMax) else r.info.valSz;
      ReadBufOk(v, key, room, addr);
      hide BufOk;
      var ref := if f.modifying then -1 else 1;
      LoadOk(v.sizes, v.store, v.store, v.cache, key, ReadBuf(v, key, room, addr), ref, f.prio);
    }
  }

  lemma IgnoreBufOk(v: Vinyl, key: Key, valMax: nat, addr: nat)
    requires Inv(v) && Stored(v.store, key) && valMax <= ValMax(v.sizes)
    ensures var b := ReadBuf(v, key, valMax, addr);
      var b' := b.(info := v.store.recs[key].info.(valSz := 0), val := Region(v.sizes, b.szc, []));
      BufOk(v.sizes, v.store, key, b', -1) && b'.addr == addr && valMax <= |b'.val|
  {
    hide CacheOk, StoreOk, Val, Szc;
    ClassFits(v.sizes, valMax);
  }

  lemma AcquireCreateOk(v: Vinyl, f: Flags, key: Key, valMax: nat, addr: nat)
    requires Inv(v) && key !in v.store.recs && Evictable(v.cache)
    requires FreshAfterEvict(v.cache, addr) && valMax <= ValMax(v.sizes)
    ensures Inv(AcquireCreate(v, f, key, valMax, addr))
    ensures Committed(AcquireCreate(v, f, key, valMax, addr).store) == Committed(v.store)
  {
    hide StoreOk, Val, Szc, Load, Committed;
    CreatedOk(v.sizes, v.store, key);
    ClassFits(v.sizes, valMax);
    var v' := AcquireCreate(v, f, key, valMax, addr);
    var szc := ClassOf(v.sizes, valMax);
    var b := Buf(addr, szc, Creating, key, NO_INFO, Region(v.sizes, szc, []));
    assert BufOk(v.sizes, v'.store, key, b, -1);
    assert KeyOk(v.store, v.cache, key);
    hide CacheOk, BufOk;
    LoadOk(v.sizes, v.store, v'.store, v.cache, key, b, -1, f.prio);
  }

  /** ACQUIRE keeps the invariant and never changes the committed map; when it fails
      nothing changes at all. */
  lemma AcquireOk(v: Vinyl, f: Flags, key: Key, valMax: nat, addr: nat)
    requires Inv(v) && Evictable(v.cache) && AcquireAddr(v, f, key, valMax, addr)
    ensures var r := Acquire(v, f, key, valMax, addr);
      && Inv(r.v) && Committed(r.v.store) == Committed(v.store)
      && (r.err != Success ==> r.v == v)
  {
    hide CacheOk, StoreOk, AcquireCached, AcquireUncached, AcquireCreate, Committed;
    var m := if f.modifying then valMax else 0;
    if f.modifying && valMax > ValMax(v.sizes) {
    } else if key !in v.store.recs {
      if f.modifying && f.create { AcquireCreateOk(v, f, key, valMax, addr); }
    } else if Stored(v.store, key) {
      if key in v.cache.at {
        AcquireCachedOk(v, f, key, m, addr);
        AcquireCachedReply(v, f, v.cache.at[key], valMax, addr);
      } else if !(f.modifying && f.excl) {
        AcquireUncachedOk(v, f, key, m, addr);
        AcquireUncachedSame(v, f, key, valMax, addr);
      }
    }
  }

  /** A reader's size limit plays no part. */
  lemma AcquireCachedReply(v: Vinyl, f: Flags, l: nat, valMax: nat, addr: nat)
    ensures var r := AcquireCached(v, f, l, valMax, addr);
      && r == AcquireCached(v, f, l, if f.modifying then valMax else 0, addr) && r.v.store == v.store
      && (r.err != Success ==> r.v == v)
  {
  }

  lemma AcquireUncachedSame(v: Vinyl, f: Flags, key: Key, valMax: nat, addr: nat)
    requires key in v.store.recs
    ensures var v' := AcquireUncached(v, f, key, valMax, addr);
      v' == AcquireUncached(v, f, key, if f.modifying then valMax else 0, addr) && v'.store == v.store
  {
  }

  // ----- RELEASE ------------------------------------------------------------------------------

  /** What RELEASE demands of its client, and would halt the store over: a reader does
      not claim to have modified, a committed value fits its buffer, and a cancel that
      vouches for the cached pair has left it as it was. */
  ghost predicate ClientOk(v: Vinyl, f: Flags, l: nat, e: Encoding) {
    var b := BufAt(v.cache, l);
    var key := KeyAt(v.cache, l);
    && (LineAt(v.cache, l).ref > 0 ==> !f.modifying)
    && (LineAt(v.cache, l).ref < 0 && f.modifying && !f.erase ==>
          b.info.valSz <= |b.val| && (e.raw ==> e.esz == b.info.valSz))
    && (LineAt(v.cache, l).ref < 0 && !f.modifying && !f.ignore && Stored(v.store, key) ==>
          b.info == v.store.recs[key].info && Front(b.val, b.info.valSz) == Val(v.store, key))
  }

  lemma RefitOk(sizes: seq<nat>, b: Buf, addr: nat)
    requires ValidSizes(sizes) && b.szc < |sizes| && |b.val| == sizes[b.szc] && b.info.valSz <= |b.val|
    ensures var b' := Refit(sizes, b, addr);
      && b.info.valSz <= ValMax(sizes) && b'.szc == Szc(sizes, b.info.valSz) < |sizes| && |b'.val| == sizes[b'.szc]
      && b'.szc <= b.szc
      && b'.info == b.info && b'.key == b.key && b'.ctl == b.ctl
      && b'.val[..b.info.valSz] == b.val[..b.info.valSz] && (b'.addr == b.addr || (b'.addr == addr && b'.szc != b.szc))
  {
    ClassFits(sizes, b.info.valSz);
  }

  lemma ReleaseRead(v: Vinyl, key: Key, p: Prio)
    requires Inv(v) && key in v.cache.at && LineAt(v.cache, v.cache.at[key]).ref > 0
    ensures var l := v.cache.at[key]; var x := LineAt(v.cache, l);
      Inv(v.(cache := Put(Prioritize(v.cache, l, p), l, x.(ref := x.ref - 1))))
  {
    hide CacheOk, StoreOk, Szc, Val;
    CachedKnown(v, key);
    var l := v.cache.at[key];
    var x := LineAt(v.cache, l);
    OrderedOk(v, l, p);
    hide Inv;
    ReplaceOk(v.(cache := Prioritize(v.cache, l, p)), key, x.(ref := x.ref - 1));
  }

  lemma CancelOk(v: Vinyl, f: Flags, key: Key, e: Encoding, addr: nat)
    requires Inv(v) && key in v.cache.at && LineAt(v.cache, v.cache.at[key]).ref == -1 && Stored(v.store, key)
    requires !f.modifying && !f.ignore && ClientOk(v, f, v.cache.at[key], e) && ReleaseAddr(v, f, v.cache.at[key], addr)
    ensures var l := v.cache.at[key]; var b' := Refit(v.sizes, BufAt(v.cache, l), addr);
      Inv(v.(cache := Prioritize(SetLine(v.cache, l, b', Unbump(LineAt(v.cache, l).ver), 0), l, f.prio)))
  {
    hide CacheOk, StoreOk, Szc, Val, Refit, Unbump;
    CachedKnown(v, key);
    InvKnown(v, key);
    var l := v.cache.at[key];
    var x := LineAt(v.cache, l);
    RefitOk(v.sizes, BufAt(v.cache, l), addr);
    var b' := Refit(v.sizes, BufAt(v.cache, l), addr);
    assert LineOk(v.sizes, v.store, x.(buf := Some(b'), ver := Unbump(x.ver), ref := 0));
    hide Inv, LineOk;
    ReplaceOk(v, key, x.(buf := Some(b'), ver := Unbump(x.ver), ref := 0));
    OrderedOk(v.(cache := SetLine(v.cache, l, b', Unbump(x.ver), 0)), l, f.prio);
  }

  lemma CommitOk(v: Vinyl, f: Flags, key: Key, e: Encoding, addr: nat)
    requires Inv(v) && key in v.cache.at && LineAt(v.cache, v.cache.at[key]).ref == -1
    requires f.modifying && !f.erase && ClientOk(v, f, v.cache.at[key], e) && ReleaseAddr(v, f, v.cache.at[key], addr)
    ensures var l := v.cache.at[key]; var b := BufAt(v.cache, l); var v' := Commit(v, f, l, e, addr);
      Inv(v') && Committed(v'.store) == Committed(v.store)[key := Content(b.info, Front(b.val, b.info.valSz))]
  {
    hide CacheOk, StoreOk, Szc, Val, Refit, Bump, Committed, Written;
    CachedKnown(v, key);
    var l := v.cache.at[key];
    var x := LineAt(v.cache, l);
    var b := BufAt(v.cache, l);
    RefitOk(v.sizes, b, addr);
    WrittenOk(v.sizes, v.store, key, b.info, Pair(e.raw, e.esz), Front(b.val, b.info.valSz));
    var b' := Refit(v.sizes, b, addr).(ctl := Pair(true, b.info.valSz));
    var s' := Written(v.store, key, b.info, Pair(e.raw, e.esz), Front(b.val, b.info.valSz));
    var x' := x.(buf := Some(b'), ver := Bump(x.ver), ref := 0);
    assert LineOk(v.sizes, s', x');
    hide LineOk, BufOk;
    PutOk(v.sizes, v.store, s', v.cache, l, x');
    PrioritizeOk(v.sizes, s', Put(v.cache, l, x'), l, f.prio);
  }

  lemma DropLruOk(v: Vinyl, key: Key, s': Store)
    requires Inv(v) && key in v.cache.at && Agree(v.store, s', {key}) && StoreOk(v.sizes, s')
    requires key in s'.recs ==> Stored(s', key)
    ensures Inv(v.(cache := DropLru(v.cache, v.cache.at[key]), store := s'))
  {
    hide CacheOk, StoreOk, BufOk, Agree;
    CachedKnown(v, key);
    var l := v.cache.at[key];
    DropOk(v.sizes, v.store, s', v.cache, l);
    PrioritizeOk(v.sizes, s', Drop(v.cache, l), l, Lru);
  }

  /** What a release does to the committed map. */
  function ReleaseMap(v: Vinyl, f: Flags, l: nat): map<Key, Content> {
    var b := BufAt(v.cache, l);
    if LineAt(v.cache, l).ref > 0 || !f.modifying then Committed(v.store)
    else if f.erase then Committed(v.store) - {KeyAt(v.cache, l)}
    else Committed(v.store)[KeyAt(v.cache, l) := Content(b.info, Front(b.val, b.info.valSz))]
  }

  /** RELEASE of a held line keeps the invariant: a read release and a cancel leave the
      committed map alone, a commit puts the buffer's pair, an erase removes the key. */
  lemma ReleaseOk(v: Vinyl, f: Flags, l: nat, e: Encoding, addr: nat)
    requires Inv(v) && l < |v.cache.lines| && v.cache.lines[l].ref != 0
    requires ClientOk(v, f, l, e) && ReleaseAddr(v, f, l, addr)
    ensures var v' := ReleaseLine(v, f, l, e, addr);
      Inv(v') && Committed(v'.store) == ReleaseMap(v, f, l)
  {
    hide CacheOk, StoreOk, Commit, Refit, Written, Erased, Forgotten, DropLru, Committed, Szc, Val;
    HeldKnown(v, l);
    var key := KeyAt(v.cache, l);
    CachedKnown(v, key);
    NotCommitted(v.store, key);
    if v.cache.lines[l].ref > 0 {
      ReleaseRead(v, key, f.prio);
    } else if f.modifying && !f.erase {
      CommitOk(v, f, key, e, addr);
    } else if !Stored(v.store, key) {
      ForgottenOk(v.sizes, v.store, key);
      DropLruOk(v, key, Forgotten(v.store, key));
    } else if f.modifying {
      ErasedOk(v.sizes, v.store, key);
      DropLruOk(v, key, Erased(v.store, key));
    } else if f.ignore {
      AgreeSelf(v.store, {key});
      DropLruOk(v, key, v.store);
    } else {
      CancelOk(v, f, key, e, addr);
    }
  }

  lemma NotCommitted(s: Store, key: Key)
    ensures !Stored(s, key) ==> Committed(s) - {key} == Committed(s)
  {
  }

  lemma HeldKnown(v: Vinyl, l: nat)
    requires Inv(v) && l < |v.cache.lines| && v.cache.lines[l].ref != 0
    ensures v.cache.lines[l].key.Some? && KeyAt(v.cache, l) in v.cache.at && v.cache.at[KeyAt(v.cache, l)] == l
  {
    hide StoreOk, BufOk, AddrOk, OrderOk;
    assert LineOk(v.sizes, v.store, v.cache.lines[l]);
  }

  // ----- ERASE, FLUSH, FETCH --------------------------------------------------------------------

  /** ERASE removes exactly its key, and fails with nothing changed on a missing or held
      one. */
  lemma EraseOk(v: Vinyl, key: Key)
    requires Inv(v)
    ensures var r := Erase(v, key);
      && Inv(r.v) && (r.err == Success <==> key in v.store.recs && !Held(v, key))
      && (if r.err == Success then Committed(r.v.store) == Committed(v.store) - {key} else r.v == v)
  {
    hide CacheOk, StoreOk, Erased, DropLru, Committed, BufOk;
    if key in v.store.recs && !Held(v, key) {
      ErasedOk(v.sizes, v.store, key);
      if key in v.cache.at {
        CachedKnown(v, key);
        DropLruOk(v, key, Erased(v.store, key));
      } else {
        UncachedOk(v.sizes, v.store, Erased(v.store, key), v.cache, key);
      }
    }
  }

  /** FLUSH changes no committed pair. */
  lemma FlushOk(v: Vinyl, key: Key)
    requires Inv(v)
    ensures Inv(Flush(v, key)) && Flush(v, key).store == v.store
  {
    hide CacheOk, StoreOk, DropLru, BufOk, Prioritize;
    if key in v.store.recs && key in v.cache.at {
      CachedKnown(v, key);
      var l := v.cache.at[key];
      if LineAt(v.cache, l).ref != 0 {
        OrderedOk(v, l, Lru);
      } else {
        AgreeSelf(v.store, {key});
        DropLruOk(v, key, v.store);
      }
    }
  }

  /** FETCH changes no committed pair. */
  lemma FetchOk(v: Vinyl, key: Key, addr: nat)
    requires Inv(v) && Evictable(v.cache) && FetchAddr(v, key, addr)
    ensures Inv(Fetch(v, key, addr)) && Fetch(v, key, addr).store == v.store
  {
    hide CacheOk, StoreOk, BufOk, Prioritize, ReadBuf, Load;
    if Stored(v.store, key) {
      if key in v.cache.at {
        CachedKnown(v, key);
        OrderedOk(v, v.cache.at[key], Mru);
      } else {
        InvKnown(v, key);
        AgreeSelf(v.store, {key});
        ReadBufOk(v, key, v.store.recs[key].info.valSz, addr);
        LoadOk(v.sizes, v.store, v.store, v.cache, key, ReadBuf(v, key, v.store.recs[key].info.valSz, addr), 0, Mru);
      }
    }
  }

  // ----- MOVE --------------------------------------------------------------------------------------

  lemma LoadCaches(sizes: seq<nat>, s: Store, c: Cache, key: Key, b: Buf, ref: int, p: Prio)
    requires ValidSizes(sizes) && CacheOk(sizes, s, c) && Evictable(c) && key !in c.at
    ensures var c' := Load(c, key, b, ref, p);
      && key in c'.at && LineAt(c', c'.at[key]).ref == ref
      && (forall k | k in c'.at :: k == key || (k in c.at && c'.at[k] == c.at[k] && c'.at[k] != c'.at[key]
                                                && LineAt(c', c'.at[k]) == LineAt(c, c.at[k])))
  {
    hide LinesOk, AddrOk, OrderOk;
    VictimStored(sizes, s, c);
    var l := Victim(c.lines, c.order);
    forall k | k in c.at && c.at[k] == l
      ensures c.lines[l].key == Some(k)
    {
    }
  }

  /** After MoveLoad src is cached and unheld, and dst is still not held - it may just
      have been evicted. */
  lemma MoveLoadOk(v: Vinyl, src: Key, dst: Key, addr: nat)
    requires Inv(v) && Evictable(v.cache) && MoveAddr(v, src, dst, addr) && src != dst
    requires src in v.store.recs && !Held(v, src) && !Held(v, dst)
    ensures var v' := MoveLoad(v, src, addr);
      && Inv(v') && v'.store == v.store && v'.sizes == v.sizes && src in v'.cache.at && !Held(v', src) && !Held(v', dst)
  {
    hide CacheOk, StoreOk, ReadBuf, Load, Szc, Val, Bump;
    if src in v.cache.at {
      CachedKnown(v, src);
      var l := v.cache.at[src];
      var x := LineAt(v.cache, l);
      assert LineOk(v.sizes, v.store, x.(ver := Bump(x.ver), ref := 0));
      hide Inv, LineOk;
      ReplaceOk(v, src, x.(ver := Bump(x.ver), ref := 0));
    } else {
      hide BufOk;
      assert Stored(v.store, src) by { UncachedStored(v, src); }
      var sz := v.store.recs[src].info.valSz;
      InvKnown(v, src);
      AgreeSelf(v.store, {src});
      ReadBufOk(v, src, sz, addr);
      FreshStays(v.cache, addr);
      LoadOk(v.sizes, v.store, v.store, v.cache, src, ReadBuf(v, src, sz, addr), 0, Lru);
      LoadCaches(v.sizes, v.store, v.cache, src, ReadBuf(v, src, sz, addr), 0, Lru);
    }
  }

  lemma UncachedStored(v: Vinyl, key: Key)
    requires Inv(v) && key in v.store.recs && key !in v.cache.at
    ensures Stored(v.store, key)
  {
    hide StoreOk, LinesOk, PtrOk, AddrOk, OrderOk;
    assert KeyOk(v.store, v.cache, key);
  }

  lemma UnheldStored(v: Vinyl, key: Key)
    requires Inv(v) && key in v.store.recs && !Held(v, key)
    ensures Stored(v.store, key)
  {
    hide StoreOk, LinesOk, PtrOk, AddrOk, OrderOk;
    assert KeyOk(v.store, v.cache, key);
  }

  lemma DropLruAt(c: Cache, key: Key, src: Key)
    requires PtrOk(c) && key in c.at && src in c.at && src != key
    ensures var c' := DropLru(c, c.at[key]);
      key !in c'.at && src in c'.at && c'.at[src] == c.at[src] && LineAt(c', c'.at[src]) == LineAt(c, c.at[src])
  {
  }

  lemma MoveClearOk(v: Vinyl, src: Key, dst: Key)
    requires Inv(v) && src != dst && src in v.cache.at && !Held(v, src) && !Held(v, dst)
    ensures var v' := MoveClear(v, dst);
      && Inv(v') && v'.sizes == v.sizes && dst !in v'.store.recs && dst !in v'.cache.at
      && src in v'.cache.at && v'.cache.at[src] == v.cache.at[src]
      && LineAt(v'.cache, v'.cache.at[src]) == LineAt(v.cache, v.cache.at[src])
      && Committed(v'.store) == Committed(v.store) - {dst}
      && v'.store.recs == v.store.recs - {dst} && v'.store.log == v.store.log
  {
    hide CacheOk, StoreOk, BufOk, Committed, DropLru;
    var s := v.store;
    if dst in s.recs {
      var s0 := Forgotten(s, dst);
      var s' := s0.(garbageCnt := s.garbageCnt + 1, garbageSz := s.garbageSz + OldSz(s, dst));
      ForgottenOk(v.sizes, s, dst);
      CountersFree(v.sizes, s, s0, s', {dst});
      if dst in v.cache.at {
        DropLruOk(v, dst, s');
        InvPtr(v);
        DropLruAt(v.cache, dst, src);
      } else {
        UncachedOk(v.sizes, s, s', v.cache, dst);
      }
    } else {
      NotCommitted(s, dst);
      if dst in v.cache.at { CachedKnown(v, dst); }
    }
  }

  lemma InvPtr(v: Vinyl)
    requires Inv(v)
    ensures PtrOk(v.cache)
  {
  }

  lemma CountersFree(sizes: seq<nat>, s: Store, s0: Store, s': Store, ks: set<Key>)
    requires sizes != [] && StoreOk(sizes, s0) && Agree(s, s0, ks)
    requires s'.recs == s0.recs && s'.log == s0.log && s'.pairCnt == s0.pairCnt
    ensures StoreOk(sizes, s') && Agree(s, s', ks) && Committed(s') == Committed(s0)
  {
    hide BlockAt;
    forall k
      ensures RecOk(sizes, s', k)
    {
      assert RecOk(sizes, s0, k);
    }
    assert forall k | k in s0.recs :: Val(s', k) == Val(s0, k);
  }

  lemma MoveOverOk(v: Vinyl, src: Key, dst: Key)
    requires Inv(v) && src != dst && src in v.cache.at && !Held(v, src) && dst !in v.store.recs && dst !in v.cache.at
    ensures var v' := MoveOver(v, src, dst);
      && Inv(v') && src in Committed(v.store)
      && Committed(v'.store) == (Committed(v.store) - {src})[dst := Committed(v.store)[src]]
  {
    hide CacheOk, StoreOk, Committed, Val, Szc, Moved;
    CachedKnown(v, src);
    UnheldStored(v, src);
    InCommitted(v.store, src);
    var l := v.cache.at[src];
    var b := BufAt(v.cache, l).(key := dst);
    var s' := Moved(v.store, src, dst, b.info, b.ctl, Front(b.val, b.info.valSz));
    MovedOk(v.sizes, v.store, src, dst, b.info, b.ctl, Front(b.val, b.info.valSz));
    var x := LineAt(v.cache, l).(key := Some(dst), buf := Some(b));
    assert LineOk(v.sizes, s', x);
    hide LineOk, BufOk;
    RenameOk(v.sizes, v.store, s', v.cache, l, src, dst, x);
  }

  lemma InCommitted(s: Store, key: Key)
    requires Stored(s, key)
    ensures key in Committed(s) && Committed(s)[key] == Content(s.recs[key].info, Val(s, key))
  {
  }

  lemma MoveMap(m: map<Key, Content>, src: Key, dst: Key)
    requires src in m && src != dst
    ensures src in m - {dst} && (m - {dst} - {src})[dst := (m - {dst})[src]] == (m - {src})[dst := m[src]]
  {
  }

  /** MOVE: with distinct keys, success turns the committed map M into M without src and
      with dst mapped to what src had, even when loading src evicts dst's line; failure
      changes nothing. */
  lemma MoveOk(v: Vinyl, src: Key, dst: Key, addr: nat)
    requires Inv(v) && Evictable(v.cache) && MoveAddr(v, src, dst, addr)
    ensures var r := Move(v, src, dst, addr); var m := Committed(v.store);
      && Inv(r.v)
      && (r.err == Success <==> src == dst || (src in v.store.recs && !Held(v, src) && !Held(v, dst)))
      && (r.err != Success || src == dst ==> r.v == v)
      && (r.err == Success && src != dst ==>
            && src in m && Committed(r.v.store) == (m - {src})[dst := m[src]]
            && r.v.store.pairCnt == v.store.pairCnt - (if dst in v.store.recs then 1 else 0))
  {
    hide CacheOk, StoreOk, Committed, MoveLoad, MoveClear, MoveOver;
    if Held(v, dst) {
      HeldRec(v, dst);
    }
    if src != dst && src in v.store.recs && !Held(v, src) && !Held(v, dst) {
      var v1 := MoveLoad(v, src, addr);
      MoveLoadOk(v, src, dst, addr);
      var v2 := MoveClear(v1, dst);
      MoveClearOk(v1, src, dst);
      StillUnheld(v1, v2, src);
      MoveOverOk(v2, src, dst);
      MovePairCnt(v1, src, dst);
      UnheldStored(v, src);
      InCommitted(v.store, src);
      MoveMap(Committed(v.store), src, dst);
    }
  }

  lemma StillUnheld(v1: Vinyl, v2: Vinyl, src: Key)
    requires src in v1.cache.at && !Held(v1, src) && src in v2.cache.at && v2.cache.at[src] == v1.cache.at[src]
    requires LineAt(v2.cache, v2.cache.at[src]) == LineAt(v1.cache, v1.cache.at[src])
    ensures !Held(v2, src)
  {
  }

  lemma HeldRec(v: Vinyl, key: Key)
    requires Inv(v) && Held(v, key)
    ensures key in v.store.recs
  {
    hide StoreOk, BufOk;
    CachedKnown(v, key);
  }

  lemma MovePairCnt(v: Vinyl, src: Key, dst: Key)
    ensures MoveOver(MoveClear(v, dst), src, dst).store.pairCnt
         == v.store.pairCnt - if dst in v.store.recs then 1 else 0
  {
  }

  // ----- clients -------------------------------------------------------------------------------------

  /** A client that writes to what it holds for modify breaks nothing. */
  lemma ClientWriteOk(v: Vinyl, l: nat, info: Info, val: seq<int>)
    requires Inv(v)
    ensures Inv(ClientWrite(v, l, info, val)) && ClientWrite(v, l, info, val).store == v.store
  {
    hide CacheOk, StoreOk, Szc, Val;
    if LineAt(v.cache, l).ref == -1 && |val| == |BufAt(v.cache, l).val| {
      HeldKnown(v, l);
      var key := KeyAt(v.cache, l);
      CachedKnown(v, key);
      var x := LineAt(v.cache, l).(buf := Some(BufAt(v.cache, l).(info := info, val := val)));
      assert LineOk(v.sizes, v.store, x);
      hide Inv, LineOk, BufOk;
      ReplaceOk(v, key, x);
    }
  }
}
