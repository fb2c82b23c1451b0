/** Outstanding acquires: how each request item changes their number, and why a line
    to evict is always left. */
module VinylQuota {
  import opened Basics
  import opened VinylTypes
  import opened VinylStep
  import opened VinylInv
  import opened VinylOps

  /** Acquires outstanding on a line. */
  function Holds(x: Line): nat {
    if x.ref < 0 then 1 else x.ref
  }

  function Outstanding(lines: seq<Line>): nat {
    if lines == [] then 0 else Outstanding(lines[..|lines| - 1]) + Holds(lines[|lines| - 1])
  }

  lemma {:induction false} OutstandingPut(lines: seq<Line>, l: nat, x: Line)
    requires l < |lines|
    ensures Outstanding(lines[l := x]) == Outstanding(lines) - Holds(lines[l]) + Holds(x)
  {
    var n := |lines| - 1;
    if l < n {
      assert lines[l := x][..n] == lines[..n][l := x];
      OutstandingPut(lines[..n], l, x);
    } else {
      assert lines[l := x][..n] == lines[..n];
    }
  }

  /** Fewer acquires than lines leaves a line that nobody holds. */
  lemma {:induction false} IdleLine(lines: seq<Line>)
    requires Outstanding(lines) < |lines|
    ensures exists l :: 0 <= l < |lines| && lines[l].ref == 0
  {
    var n := |lines| - 1;
    if lines[n].ref != 0 {
      IdleLine(lines[..n]);
      var l :| 0 <= l < n && lines[..n][l].ref == 0;
      assert lines[l].ref == 0;
    }
  }

  lemma {:induction false} HoldsBelow(lines: seq<Line>, l: nat)
    requires l < |lines|
    ensures Holds(lines[l]) <= Outstanding(lines)
  {
    var n := |lines| - 1;
    if l < n { HoldsBelow(lines[..n], l); }
  }

  function Taken(v: Vinyl): nat { Outstanding(v.cache.lines) }

  lemma TakenPut(c: Cache, l: nat, x: Line)
    requires l < |c.lines|
    ensures Outstanding(Put(c, l, x).lines) == Outstanding(c.lines) - Holds(c.lines[l]) + Holds(x)
  {
    OutstandingPut(c.lines, l, x);
  }

  lemma TakenDrop(c: Cache, l: nat)
    requires l < |c.lines|
    ensures Outstanding(Drop(c, l).lines) == Outstanding(DropLru(c, l).lines)
        == Outstanding(c.lines) - Holds(c.lines[l])
  {
    OutstandingPut(c.lines, l, Line(None, None, Bump(c.lines[l].ver), 0));
  }

  lemma TakenLoad(sizes: seq<nat>, s: Store, c: Cache, key: Key, b: Buf, ref: int, p: Prio)
    requires ValidSizes(sizes) && CacheOk(sizes, s, c) && Evictable(c)
    ensures Outstanding(Load(c, key, b, ref, p).lines) == Outstanding(c.lines) + Holds(Line(None, None, 0, ref))
    ensures |Load(c, key, b, ref, p).lines| == |c.lines|
  {
    hide CacheOk, Outstanding, Bump;
    VictimStored(sizes, s, c);
    var l := Victim(c.lines, c.order);
    TakenDrop(c, l);
    TakenPut(Drop(c, l), l, Line(Some(key), Some(b), Bump(LineAt(Drop(c, l), l).ver), ref));
  }

  /** A successful ACQUIRE takes one, any other takes none. */
  lemma AcquireTakes(v: Vinyl, f: Flags, key: Key, valMax: nat, addr: nat)
    requires Inv(v) && Evictable(v.cache)
    ensures var r := Acquire(v, f, key, valMax, addr);
      Taken(r.v) == Taken(v) + (if r.err == Success then 1 else 0) && |r.v.cache.lines| == |v.cache.lines|
  {
    hide CacheOk, StoreOk, Outstanding, Load, BufOk, Resize, ReadBuf, Region, ClassOf;
    if key in v.store.recs && key in v.cache.at {
      CachedKnown(v, key);
      var l := v.cache.at[key];
      var x := LineAt(v.cache, l);
      TakenPut(v.cache, l, x.(ref := x.ref + 1));
      forall b, w {
        TakenPut(v.cache, l, x.(buf := Some(b), ver := w, ref := -1));
      }
    } else {
      forall b, n {
        TakenLoad(v.sizes, v.store, v.cache, key, b, n, f.prio);
      }
    }
  }

  /** A successful RELEASE returns one. */
  lemma ReleaseReturns(v: Vinyl, f: Flags, l: nat, e: Encoding, addr: nat)
    requires Inv(v) && l < |v.cache.lines| && v.cache.lines[l].ref != 0
    ensures var v' := ReleaseLine(v, f, l, e, addr);
      Taken(v') == Taken(v) - 1 && |v'.cache.lines| == |v.cache.lines|
  {
    hide CacheOk, StoreOk, Outstanding, BufOk, Refit, Written, Erased, Forgotten;
    HeldKnown(v, l);
    CachedKnown(v, KeyAt(v.cache, l));
    var x := LineAt(v.cache, l);
    assert x.ref >= -1 by { HeldRange(v, l); }
    TakenDrop(v.cache, l);
    TakenPut(v.cache, l, x.(ref := x.ref - 1));
    forall b, w {
      TakenPut(v.cache, l, x.(buf := Some(b), ver := w, ref := 0));
    }
  }

  lemma HeldRange(v: Vinyl, l: nat)
    requires Inv(v) && l < |v.cache.lines|
    ensures v.cache.lines[l].ref >= -1
  {
    hide StoreOk, PtrOk, AddrOk, OrderOk;
    assert LineOk(v.sizes, v.store, v.cache.lines[l]);
  }

  lemma EraseTakes(v: Vinyl, key: Key)
    requires Inv(v)
    ensures Taken(Erase(v, key).v) == Taken(v) && |Erase(v, key).v.cache.lines| == |v.cache.lines|
  {
    hide CacheOk, StoreOk, Outstanding, BufOk, Erased;
    if key in v.cache.at {
      CachedKnown(v, key);
      TakenDrop(v.cache, v.cache.at[key]);
    }
  }

  lemma FlushTakes(v: Vinyl, key: Key)
    requires Inv(v)
    ensures Taken(Flush(v, key)) == Taken(v) && |Flush(v, key).cache.lines| == |v.cache.lines|
  {
    hide CacheOk, StoreOk, Outstanding, BufOk;
    if key in v.cache.at {
      CachedKnown(v, key);
      TakenDrop(v.cache, v.cache.at[key]);
    }
  }

  lemma FetchTakes(v: Vinyl, key: Key, addr: nat)
    requires Inv(v) && Evictable(v.cache)
    ensures Taken(Fetch(v, key, addr)) == Taken(v) && |Fetch(v, key, addr).cache.lines| == |v.cache.lines|
  {
    hide CacheOk, StoreOk, Outstanding, BufOk, ReadBuf, Load;
    if Stored(v.store, key) && key !in v.cache.at {
      TakenLoad(v.sizes, v.store, v.cache, key, ReadBuf(v, key, v.store.recs[key].info.valSz, addr), 0, Mru);
    }
  }

  lemma MoveTakes(v: Vinyl, src: Key, dst: Key, addr: nat)
    requires Inv(v) && Evictable(v.cache) && MoveAddr(v, src, dst, addr)
    ensures Taken(Move(v, src, dst, addr).v) == Taken(v) && |Move(v, src, dst, addr).v.cache.lines| == |v.cache.lines|
  {
    hide CacheOk, StoreOk, Outstanding, BufOk, ReadBuf, Load, MoveLoad, MoveClear, MoveOver;
    if Held(v, dst) { HeldRec(v, dst); }
    if src != dst && src in v.store.recs && !Held(v, src) && !Held(v, dst) {
      var v1 := MoveLoad(v, src, addr);
      var v2 := MoveClear(v1, dst);
      MoveLoadOk(v, src, dst, addr);
      MoveClearOk(v1, src, dst);
      MoveLoadTakes(v, src, addr);
      MoveClearTakes(v1, dst);
      MoveOverTakes(v2, src, dst);
    }
  }

  lemma MoveLoadTakes(v: Vinyl, src: Key, addr: nat)
    requires Inv(v) && Evictable(v.cache) && src in v.store.recs && !Held(v, src)
    ensures Taken(MoveLoad(v, src, addr)) == Taken(v) && |MoveLoad(v, src, addr).cache.lines| == |v.cache.lines|
  {
    hide CacheOk, StoreOk, Outstanding, BufOk, ReadBuf, Load, Bump;
    if src in v.cache.at {
      CachedKnown(v, src);
      var x := LineAt(v.cache, v.cache.at[src]);
      TakenPut(v.cache, v.cache.at[src], x.(ver := Bump(x.ver), ref := 0));
    } else {
      TakenLoad(v.sizes, v.store, v.cache, src, ReadBuf(v, src, v.store.recs[src].info.valSz, addr), 0, Lru);
    }
  }

  lemma MoveClearTakes(v: Vinyl, dst: Key)
    requires Inv(v) && !Held(v, dst)
    ensures Taken(MoveClear(v, dst)) == Taken(v) && |MoveClear(v, dst).cache.lines| == |v.cache.lines|
  {
    hide CacheOk, StoreOk, Outstanding, BufOk, Forgotten, OldSz;
    if dst in v.cache.at {
      CachedKnown(v, dst);
      TakenDrop(v.cache, v.cache.at[dst]);
    }
  }

  lemma MoveOverTakes(v: Vinyl, src: Key, dst: Key)
    requires Inv(v)
    ensures Taken(MoveOver(v, src, dst)) == Taken(v) && |MoveOver(v, src, dst).cache.lines| == |v.cache.lines|
  {
    hide CacheOk, StoreOk, Outstanding, BufOk, Moved;
    if src in v.cache.at {
      CachedKnown(v, src);
      var l := v.cache.at[src];
      TakenPut(v.cache, l, LineAt(v.cache, l).(key := Some(dst), buf := Some(BufAt(v.cache, l).(key := dst))));
    }
  }

  lemma WriteTakes(v: Vinyl, l: nat, info: Info, val: seq<int>)
    ensures Taken(ClientWrite(v, l, info, val)) == Taken(v)
    ensures |ClientWrite(v, l, info, val).cache.lines| == |v.cache.lines|
  {
    hide Outstanding;
    if l < |v.cache.lines| {
      TakenPut(v.cache, l, LineAt(v.cache, l).(buf := Some(BufAt(v.cache, l).(info := info, val := val))));
    }
  }
}
