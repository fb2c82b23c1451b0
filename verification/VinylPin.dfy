/** A line acquired for read is left alone by every request of every client. */
module VinylPin {
  import opened Basics
  import opened VinylTypes
  import opened VinylStep
  import opened VinylInv
  import opened VinylStore
  import opened VinylOps

  ghost predicate SameRecord(s: Store, s': Store, k: Key) {
    k in s.recs && k in s'.recs && s'.recs[k] == s.recs[k] && Val(s', k) == Val(s, k)
  }

  /** Line l still caches the same pair in the same object under the same version, and
      that pair's committed record is untouched; only the number of readers moved. */
  ghost predicate Kept(v: Vinyl, v': Vinyl, l: nat) {
    && l < |v.cache.lines| && l < |v'.cache.lines|
    && v'.cache.lines[l] == v.cache.lines[l].(ref := v'.cache.lines[l].ref)
    && v'.cache.lines[l].ref >= 0
    && SameRecord(v.store, v'.store, KeyAt(v.cache, l))
  }

  ghost predicate Reading(v: Vinyl, l: nat) {
    l < |v.cache.lines| && v.cache.lines[l].ref > 0
  }

  lemma ReadingKnown(v: Vinyl, l: nat)
    requires Inv(v) && Reading(v, l)
    ensures var k := KeyAt(v.cache, l);
      v.cache.lines[l].key == Some(k) && k in v.cache.at && v.cache.at[k] == l && Stored(v.store, k) && Held(v, k)
  {
    hide CacheOk, StoreOk;
    HeldKnown(v, l);
    CachedKnown(v, KeyAt(v.cache, l));
  }

  lemma KeptBy(v: Vinyl, v': Vinyl, l: nat, ks: set<Key>)
    requires Inv(v) && Reading(v, l) && l < |v'.cache.lines|
    requires v'.cache.lines[l] == v.cache.lines[l].(ref := v'.cache.lines[l].ref)
    requires v'.cache.lines[l].ref >= 0 && Agree(v.store, v'.store, ks) && KeyAt(v.cache, l) !in ks
    ensures Kept(v, v', l)
  {
    hide Inv, Val;
    ReadingKnown(v, l);
  }

  lemma LoadElsewhere(sizes: seq<nat>, s: Store, c: Cache, l: nat, key: Key, b: Buf, ref: int, p: Prio)
    requires ValidSizes(sizes) && CacheOk(sizes, s, c) && Evictable(c) && l < |c.lines| && c.lines[l].ref != 0
    ensures l < |Load(c, key, b, ref, p).lines| && Load(c, key, b, ref, p).lines[l] == c.lines[l]
  {
    hide CacheOk;
    VictimStored(sizes, s, c);
  }

  lemma AcquireKeeps(v: Vinyl, f: Flags, key: Key, valMax: nat, addr: nat, l: nat)
    requires Inv(v) && Evictable(v.cache) && Reading(v, l)
    ensures Kept(v, Acquire(v, f, key, valMax, addr).v, l)
  {
    hide CacheOk, StoreOk, Load, BufOk, Resize, ReadBuf, Region, ClassOf, Kept, Val;
    ReadingKnown(v, l);
    AgreeSelf(v.store, {});
    forall b, n {
      LoadElsewhere(v.sizes, v.store, v.cache, l, key, b, n, f.prio);
    }
    var v' := Acquire(v, f, key, valMax, addr).v;
    if key in v.store.recs {
      if key in v.cache.at { CachedKnown(v, key); }
      KeptBy(v, v', l, {});
    } else {
      CreatedOk(v.sizes, v.store, key);
      AgreeSelf(v.store, {key});
      KeptBy(v, v', l, {key});
    }
  }

  lemma ReleaseKeeps(v: Vinyl, f: Flags, m: nat, e: Encoding, addr: nat, l: nat)
    requires Inv(v) && m < |v.cache.lines| && v.cache.lines[m].ref != 0 && ClientOk(v, f, m, e) && Reading(v, l)
    ensures Kept(v, ReleaseLine(v, f, m, e, addr), l)
  {
    hide CacheOk, StoreOk, BufOk, Refit, Kept, Val, Written, Erased, Forgotten, Committed;
    ReadingKnown(v, l);
    HeldKnown(v, m);
    var k := KeyAt(v.cache, m);
    CachedKnown(v, k);
    var v' := ReleaseLine(v, f, m, e, addr);
    if m == l {
      AgreeSelf(v.store, {});
      KeptBy(v, v', l, {});
    } else {
      AgreeSelf(v.store, {k});
      ErasedOk(v.sizes, v.store, k);
      ForgottenOk(v.sizes, v.store, k);
      if v.cache.lines[m].ref < 0 && f.modifying && !f.erase {
        var b := BufAt(v.cache, m);
        CommitFits(v, f, k, e);
        WrittenOk(v.sizes, v.store, k, b.info, Pair(e.raw, e.esz), Front(b.val, b.info.valSz));
      }
      KeptBy(v, v', l, {k});
    }
  }

  lemma CommitFits(v: Vinyl, f: Flags, key: Key, e: Encoding)
    requires Inv(v) && key in v.cache.at && LineAt(v.cache, v.cache.at[key]).ref < 0
    requires f.modifying && !f.erase && ClientOk(v, f, v.cache.at[key], e)
    ensures var b := BufAt(v.cache, v.cache.at[key]); |Front(b.val, b.info.valSz)| == b.info.valSz <= ValMax(v.sizes)
  {
    hide CacheOk, StoreOk, Val, Szc;
    CachedKnown(v, key);
  }

  lemma EraseKeeps(v: Vinyl, key: Key, l: nat)
    requires Inv(v) && Reading(v, l)
    ensures Kept(v, Erase(v, key).v, l)
  {
    hide CacheOk, StoreOk, BufOk, Kept, Val, Erased, Committed;
    ReadingKnown(v, l);
    AgreeSelf(v.store, {});
    if key in v.store.recs { ErasedOk(v.sizes, v.store, key); }
    if key in v.cache.at { CachedKnown(v, key); }
    KeptBy(v, Erase(v, key).v, l, if key in v.store.recs && !Held(v, key) then {key} else {});
  }

  lemma FlushKeeps(v: Vinyl, key: Key, l: nat)
    requires Inv(v) && Reading(v, l)
    ensures Kept(v, Flush(v, key), l)
  {
    hide CacheOk, StoreOk, BufOk, Kept, Val;
    ReadingKnown(v, l);
    AgreeSelf(v.store, {});
    if key in v.cache.at { CachedKnown(v, key); }
    KeptBy(v, Flush(v, key), l, {});
  }

  lemma FetchKeeps(v: Vinyl, key: Key, addr: nat, l: nat)
    requires Inv(v) && Evictable(v.cache) && Reading(v, l)
    ensures Kept(v, Fetch(v, key, addr), l)
  {
    hide CacheOk, StoreOk, BufOk, Kept, Val, Load, ReadBuf;
    ReadingKnown(v, l);
    AgreeSelf(v.store, {});
    if Stored(v.store, key) {
      LoadElsewhere(v.sizes, v.store, v.cache, l, key, ReadBuf(v, key, v.store.recs[key].info.valSz, addr), 0, Mru);
    }
    KeptBy(v, Fetch(v, key, addr), l, {});
  }

  lemma MoveKeeps(v: Vinyl, src: Key, dst: Key, addr: nat, l: nat)
    requires Inv(v) && Evictable(v.cache) && MoveAddr(v, src, dst, addr) && Reading(v, l)
    ensures Kept(v, Move(v, src, dst, addr).v, l)
  {
    hide CacheOk, StoreOk, MoveLoad, MoveClear, MoveOver, Val;
    ReadingKnown(v, l);
    if Held(v, dst) { HeldRec(v, dst); }
    if src != dst && src in v.store.recs && !Held(v, src) && !Held(v, dst) {
      var v1 := MoveLoad(v, src, addr);
      var v2 := MoveClear(v1, dst);
      var v3 := MoveOver(v2, src, dst);
      MoveLoadOk(v, src, dst, addr);
      MoveLoadKeeps(v, src, addr, l);
      ReadingKnown(v1, l);
      MoveClearOk(v1, src, dst);
      MoveClearKeeps(v1, dst, l);
      ReadingKnown(v2, l);
      StillUnheld(v1, v2, src);
      MoveOverKeeps(v2, src, dst, l);
    }
  }

  lemma MoveLoadKeeps(v: Vinyl, src: Key, addr: nat, l: nat)
    requires Inv(v) && Evictable(v.cache) && Reading(v, l) && src in v.store.recs && !Held(v, src)
    ensures Kept(v, MoveLoad(v, src, addr), l) && Reading(MoveLoad(v, src, addr), l)
  {
    hide CacheOk, StoreOk, BufOk, Kept, Val, Load, ReadBuf;
    ReadingKnown(v, l);
    AgreeSelf(v.store, {});
    if src in v.cache.at {
      CachedKnown(v, src);
    } else {
      LoadElsewhere(v.sizes, v.store, v.cache, l, src, ReadBuf(v, src, v.store.recs[src].info.valSz, addr), 0, Lru);
    }
    KeptBy(v, MoveLoad(v, src, addr), l, {});
  }

  lemma MoveClearKeeps(v: Vinyl, dst: Key, l: nat)
    requires Inv(v) && Reading(v, l) && !Held(v, dst)
    ensures Kept(v, MoveClear(v, dst), l) && Reading(MoveClear(v, dst), l)
  {
    hide CacheOk, StoreOk, BufOk, Kept, Val, Committed, OldSz;
    ReadingKnown(v, l);
    var v' := MoveClear(v, dst);
    AgreeSelf(v.store, {dst});
    if dst in v.store.recs {
      ForgottenOk(v.sizes, v.store, dst);
      CountersFree(v.sizes, v.store, Forgotten(v.store, dst), v'.store, {dst});
    }
    if dst in v.cache.at { CachedKnown(v, dst); }
    KeptBy(v, v', l, {dst});
  }

  lemma MoveOverKeeps(v: Vinyl, src: Key, dst: Key, l: nat)
    requires Inv(v) && Reading(v, l) && src != dst && src in v.cache.at && !Held(v, src) && dst !in v.store.recs
    ensures Kept(v, MoveOver(v, src, dst), l)
  {
    hide CacheOk, StoreOk, Kept, Val, Committed, Moved, Szc;
    ReadingKnown(v, l);
    CachedKnown(v, src);
    UnheldStored(v, src);
    var b := BufAt(v.cache, v.cache.at[src]);
    MovedOk(v.sizes, v.store, src, dst, b.info, b.ctl, Front(b.val, b.info.valSz));
    KeptBy(v, MoveOver(v, src, dst), l, {src, dst});
  }

  lemma WriteKeeps(v: Vinyl, m: nat, info: Info, val: seq<int>, l: nat)
    requires Inv(v) && Reading(v, l)
    ensures Kept(v, ClientWrite(v, m, info, val), l)
  {
    hide CacheOk, StoreOk, Kept, Val;
    AgreeSelf(v.store, {});
    KeptBy(v, ClientWrite(v, m, info, val), l, {});
  }
}
