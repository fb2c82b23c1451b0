/** Line versions: whoever sees one twice has seen the same pair both times. */
module VinylVersion {
  import opened Basics
  import opened VinylTypes
  import opened VinylStep
  import opened VinylInv
  import opened VinylStore
  import opened VinylOps
  import opened VinylPin
  import opened VinylLog
  import opened VinylRun

  const WRAP: nat := 0x1_0000_0000

  /** The version a line has, or would have again if its modify were cancelled now. */
  function Settled(x: Line): nat {
    if x.ref < 0 then Unbump(x.ver) else x.ver
  }

  /** The stored pair a line stands for. */
  function PairOf(v: Vinyl, l: nat): Option<(Key, Content)> {
    match LineAt(v.cache, l).key
    case Some(k) => if Stored(v.store, k) then Some((k, Content(v.store.recs[k].info, Val(v.store, k)))) else None
    case None => None
  }

  /** By how many versions a line went on. */
  function Shift(a: Line, b: Line): nat {
    if Settled(b) == Settled(a) then 0 else if Settled(b) == Bump(Settled(a)) then 1 else 2
  }

  /** A line goes on by at most two versions, and stands for the same pair if it does
      not. */
  ghost predicate Versioned(v: Vinyl, v': Vinyl, l: nat) {
    var a, b := LineAt(v.cache, l), LineAt(v'.cache, l);
    && |v'.cache.lines| == |v.cache.lines|
    && Settled(b) == (Settled(a) + Shift(a, b)) % WRAP
    && (Shift(a, b) == 0 ==> PairOf(v', l) == PairOf(v, l))
  }

  lemma BumpIs(ver: nat)
    requires ver < WRAP
    ensures Bump(ver) == if ver + 1 == WRAP then 0 else ver + 1
    ensures Unbump(ver) == if ver == 0 then WRAP - 1 else ver - 1
    ensures Bump(ver) == (ver + 1) % WRAP
  {
  }

  lemma TwoOn(ver: nat)
    requires ver < WRAP
    ensures (ver + 2) % WRAP == if ver + 2 >= WRAP then ver + 2 - WRAP else ver + 2
  {
  }

  lemma Unbumped(ver: nat)
    requires ver < WRAP
    ensures Unbump(Bump(ver)) == ver && Bump(Unbump(ver)) == ver && Bump(ver) != ver
    ensures Bump(ver) == (ver + 1) % WRAP && Bump(Bump(ver)) == (ver + 2) % WRAP
    ensures Bump(Bump(ver)) != ver && Bump(Bump(ver)) != Bump(ver)
  {
    hide Bump, Unbump;
    BumpIs(ver);
    BumpIs(Bump(ver));
    BumpIs(Unbump(ver));
    TwoOn(ver);
  }

  lemma LineKnown(v: Vinyl, l: nat)
    requires Inv(v)
    ensures LineAt(v.cache, l).ver < WRAP && LineAt(v.cache, l).ref >= -1
    ensures LineAt(v.cache, l).key.Some? ==>
      l < |v.cache.lines| && KeyAt(v.cache, l) in v.cache.at && v.cache.at[KeyAt(v.cache, l)] == l
  {
    hide StoreOk, AddrOk, OrderOk, Szc, Val;
    if l < |v.cache.lines| { assert LineOk(v.sizes, v.store, v.cache.lines[l]); }
  }

  /** A line that nothing happened to, while the store changed elsewhere. */
  lemma Elsewhere(v: Vinyl, v': Vinyl, l: nat, ks: set<Key>)
    requires Inv(v) && |v'.cache.lines| == |v.cache.lines| && LineAt(v'.cache, l) == LineAt(v.cache, l)
    requires Agree(v.store, v'.store, ks) && (LineAt(v.cache, l).key.Some? ==> KeyAt(v.cache, l) !in ks)
    ensures Versioned(v, v', l)
  {
    hide Inv, Val;
    LineKnown(v, l);
  }

  /** A line that went on by one or two versions. */
  lemma GoesOn(v: Vinyl, v': Vinyl, l: nat)
    requires |v'.cache.lines| == |v.cache.lines|
    requires var a, b := Settled(LineAt(v.cache, l)), Settled(LineAt(v'.cache, l));
      a < WRAP && (b == Bump(a) || b == Bump(Bump(a)))
    ensures Versioned(v, v', l) && Shift(LineAt(v.cache, l), LineAt(v'.cache, l)) > 0
  {
    Unbumped(Settled(LineAt(v.cache, l)));
  }

  // ----- every item ----------------------------------------------------------------------------

  lemma LoadVersioned(v: Vinyl, key: Key, b: Buf, ref: int, p: Prio, s': Store, l: nat)
    requires Inv(v) && Evictable(v.cache) && key !in v.cache.at && ref >= -1 && Agree(v.store, s', {key})
    ensures Versioned(v, v.(cache := Load(v.cache, key, b, ref, p), store := s'), l)
  {
    hide CacheOk, StoreOk, Agree, Bump, Unbump, Versioned;
    VictimStored(v.sizes, v.store, v.cache);
    var m := Victim(v.cache.lines, v.cache.order);
    var v' := v.(cache := Load(v.cache, key, b, ref, p), store := s');
    LineKnown(v, l);
    if l == m {
      var ver := v.cache.lines[m].ver;
      Unbumped(ver);
      Unbumped(Bump(ver));
      GoesOn(v, v', l);
    } else {
      Elsewhere(v, v', l, {key});
    }
  }

  lemma AcquireVersioned(v: Vinyl, f: Flags, key: Key, valMax: nat, addr: nat, l: nat)
    requires Inv(v) && Evictable(v.cache)
    ensures Versioned(v, Acquire(v, f, key, valMax, addr).v, l)
  {
    hide CacheOk, StoreOk, Agree, Bump, Unbump, Versioned, Load, ReadBuf, Resize, Region, ClassOf, BufOk;
    AgreeSelf(v.store, {});
    AgreeSelf(v.store, {key});
    LineKnown(v, l);
    if key !in v.store.recs {
      CreatedOk(v.sizes, v.store, key);
      NotCached(v, key);
      if Creates(v, f, key, valMax) {
        var szc := ClassOf(v.sizes, valMax);
        var b := Buf(addr, szc, Creating, key, NO_INFO, Region(v.sizes, szc, []));
        LoadVersioned(v, key, b, -1, f.prio, AcquireCreate(v, f, key, valMax, addr).store, l);
      } else {
        Elsewhere(v, v, l, {});
      }
    } else if key in v.cache.at {
      AcquireCachedVersioned(v, f, key, valMax, addr, l);
      Elsewhere(v, v, l, {});
    } else {
      Elsewhere(v, v, l, {});
      AcquireUncachedVersioned(v, f, key, valMax, addr, l);
    }
  }

  lemma NotCached(v: Vinyl, key: Key)
    requires Inv(v) && key !in v.store.recs
    ensures key !in v.cache.at
  {
    hide StoreOk, LinesOk, PtrOk, AddrOk, OrderOk;
    assert KeyOk(v.store, v.cache, key);
  }

  lemma AcquireUncachedVersioned(v: Vinyl, f: Flags, key: Key, valMax: nat, addr: nat, l: nat)
    requires Inv(v) && Evictable(v.cache) && key in v.store.recs && key !in v.cache.at
    ensures Versioned(v, AcquireUncached(v, f, key, valMax, addr), l)
  {
    hide Inv, Versioned, Load, ReadBuf, Region;
    AgreeSelf(v.store, {key});
    var r := v.store.recs[key];
    var room := if !f.modifying then r.info.valSz else if !f.ignore then Max(r.info.valSz, valMax) else valMax;
    var b := ReadBuf(v, key, room, addr);
    var b' := if f.modifying && f.ignore
      then b.(info := r.info.(valSz := 0), val := Region(v.sizes, b.szc, []))
      else b;
    LoadVersioned(v, key, b', if f.modifying then -1 else 1, f.prio, v.store, l);
  }

  lemma AcquireCachedVersioned(v: Vinyl, f: Flags, key: Key, valMax: nat, addr: nat, l: nat)
    requires Inv(v) && key in v.cache.at
    ensures Versioned(v, AcquireCached(v, f, v.cache.at[key], valMax, addr).v, l)
  {
    hide CacheOk, StoreOk, Agree, Bump, Unbump, Resize, ClassOf, BufOk, Val;
    CachedKnown(v, key);
    LineKnown(v, l);
    Unbumped(LineAt(v.cache, l).ver);
    SettledSmall(LineAt(v.cache, l));
  }

  lemma SettledSmall(x: Line)
    requires x.ver < WRAP
    ensures Settled(x) < WRAP && Settled(x) == Settled(x) % WRAP
  {
  }

  lemma ReleaseVersioned(v: Vinyl, f: Flags, m: nat, e: Encoding, addr: nat, l: nat)
    requires Inv(v) && m < |v.cache.lines| && v.cache.lines[m].ref != 0 && ClientOk(v, f, m, e)
    ensures Versioned(v, ReleaseLine(v, f, m, e, addr), l)
  {
    hide CacheOk, StoreOk, BufOk, Refit, Val, Written, Erased, Forgotten, Committed, Agree, Bump, Unbump, Versioned;
    HeldKnown(v, m);
    var k := KeyAt(v.cache, m);
    CachedKnown(v, k);
    LineKnown(v, l);
    var v' := ReleaseLine(v, f, m, e, addr);
    if m == l {
      ReleasedLine(v, f, l, e, addr);
    } else {
      ReleaseAgrees(v, f, m, e, addr);
      Elsewhere(v, v', l, {k});
    }
  }

  lemma ReleaseAgrees(v: Vinyl, f: Flags, m: nat, e: Encoding, addr: nat)
    requires Inv(v) && m < |v.cache.lines| && v.cache.lines[m].ref != 0 && ClientOk(v, f, m, e)
    ensures Agree(v.store, ReleaseLine(v, f, m, e, addr).store, {KeyAt(v.cache, m)})
  {
    hide CacheOk, StoreOk, BufOk, Refit, Val, Written, Erased, Forgotten, Committed, Agree, Szc;
    HeldKnown(v, m);
    var k := KeyAt(v.cache, m);
    CachedKnown(v, k);
    AgreeSelf(v.store, {k});
    ErasedOk(v.sizes, v.store, k);
    ForgottenOk(v.sizes, v.store, k);
    if v.cache.lines[m].ref < 0 && f.modifying && !f.erase {
      var b := BufAt(v.cache, m);
      CommitFits(v, f, k, e);
      WrittenOk(v.sizes, v.store, k, b.info, Pair(e.raw, e.esz), Front(b.val, b.info.valSz));
    }
  }

  /** A reader's release and a cancel settle where the acquire started; a commit and a
      discarded line are two versions on. */
  lemma ReleasedLine(v: Vinyl, f: Flags, l: nat, e: Encoding, addr: nat)
    requires Inv(v) && l < |v.cache.lines| && v.cache.lines[l].ref != 0
    ensures Versioned(v, ReleaseLine(v, f, l, e, addr), l)
  {
    hide CacheOk, StoreOk, Refit, Val, Written, Erased, Forgotten, Bump, Unbump, Prioritize;
    HeldKnown(v, l);
    LineKnown(v, l);
    var x := v.cache.lines[l];
    Unbumped(x.ver);
    Unbumped(Unbump(x.ver));
    SettledSmall(x);
    PrioritizeLines(v, f, l, e, addr);
  }

  lemma PrioritizeLines(v: Vinyl, f: Flags, l: nat, e: Encoding, addr: nat)
    requires l < |v.cache.lines|
    ensures var x := v.cache.lines[l]; var v' := ReleaseLine(v, f, l, e, addr); var y := LineAt(v'.cache, l);
      && |v'.cache.lines| == |v.cache.lines|
      && (x.ref > 0 ==> y == x.(ref := x.ref - 1) && v'.store == v.store)
      && (x.ref <= 0 ==>
            y.ref == 0 && (y.ver == Bump(x.ver) || (y.ver == Unbump(x.ver) && y.key == x.key && v'.store == v.store)))
  {
    hide Refit, Written, Erased, Forgotten, Bump, Unbump;
  }

  lemma EraseVersioned(v: Vinyl, key: Key, l: nat)
    requires Inv(v)
    ensures Versioned(v, Erase(v, key).v, l)
  {
    hide CacheOk, StoreOk, BufOk, Val, Erased, Committed, Agree, Bump, Unbump, Versioned;
    AgreeSelf(v.store, {});
    LineKnown(v, l);
    if key in v.store.recs && !Held(v, key) {
      ErasedOk(v.sizes, v.store, key);
      if key in v.cache.at { CachedKnown(v, key); }
      if key in v.cache.at && v.cache.at[key] == l {
        GoesOn(v, Erase(v, key).v, l);
      } else {
        Elsewhere(v, Erase(v, key).v, l, {key});
      }
    } else {
      Elsewhere(v, v, l, {});
    }
  }

  lemma FlushVersioned(v: Vinyl, key: Key, l: nat)
    requires Inv(v)
    ensures Versioned(v, Flush(v, key), l)
  {
    hide CacheOk, StoreOk, BufOk, Val, Agree, Bump, Unbump, Versioned;
    AgreeSelf(v.store, {});
    LineKnown(v, l);
    if key in v.cache.at { CachedKnown(v, key); }
    if key in v.store.recs && key in v.cache.at && v.cache.at[key] == l && !Held(v, key) {
      GoesOn(v, Flush(v, key), l);
    } else {
      Elsewhere(v, Flush(v, key), l, {});
    }
  }

  lemma FetchVersioned(v: Vinyl, key: Key, addr: nat, l: nat)
    requires Inv(v) && Evictable(v.cache)
    ensures Versioned(v, Fetch(v, key, addr), l)
  {
    hide Inv, Agree, Versioned, Load, ReadBuf;
    AgreeSelf(v.store, {});
    AgreeSelf(v.store, {key});
    if FetchEvicts(v, key) {
      LoadVersioned(v, key, ReadBuf(v, key, v.store.recs[key].info.valSz, addr), 0, Mru, v.store, l);
    } else {
      Elsewhere(v, Fetch(v, key, addr), l, {});
    }
  }

  lemma WriteVersioned(v: Vinyl, m: nat, info: Info, val: seq<int>, l: nat)
    requires Inv(v)
    ensures Versioned(v, ClientWrite(v, m, info, val), l)
  {
    hide Inv, Val;
    LineKnown(v, l);
    SettledSmall(LineAt(v.cache, l));
  }

  /** Loading src for a move takes its line on and touches no other. */
  lemma MoveLoadLines(v: Vinyl, src: Key, addr: nat, l: nat)
    requires Inv(v) && Evictable(v.cache) && src in v.store.recs && !Held(v, src)
    ensures var v1 := MoveLoad(v, src, addr); var x := LineAt(v.cache, l);
      && src in v1.cache.at && |v1.cache.lines| == |v.cache.lines| && v1.store == v.store
      && (if v1.cache.at[src] == l
          then x.ref == 0 && LineAt(v1.cache, l).ref == 0
               && (LineAt(v1.cache, l).ver == Bump(x.ver) || LineAt(v1.cache, l).ver == Bump(Bump(x.ver)))
          else LineAt(v1.cache, l) == x)
  {
    hide CacheOk, StoreOk, BufOk, ReadBuf, Bump, Val;
    if src in v.cache.at { CachedKnown(v, src); } else { VictimStored(v.sizes, v.store, v.cache); }
  }

  /** Clearing dst empties its line, if it has one, and renaming src touches only src's. */
  lemma MoveRestLines(v1: Vinyl, src: Key, dst: Key, l: nat)
    requires Inv(v1) && src != dst && src in v1.cache.at && !Held(v1, src) && !Held(v1, dst)
    ensures var v3 := MoveOver(MoveClear(v1, dst), src, dst); var x, y := LineAt(v1.cache, l), LineAt(v3.cache, l);
      && |v3.cache.lines| == |v1.cache.lines|
      && (if v1.cache.at[src] == l then y.ver == x.ver && y.ref == x.ref
          else if dst in v1.cache.at && v1.cache.at[dst] == l then y.ver == Bump(x.ver) && y.ref == 0 && x.ref == 0
          else y == x)
  {
    hide CacheOk, StoreOk, BufOk, Bump, Val, Moved, Forgotten;
    CachedKnown(v1, src);
    if dst in v1.cache.at { CachedKnown(v1, dst); }
  }

  lemma MoveAgrees(v1: Vinyl, src: Key, dst: Key)
    requires Inv(v1) && src != dst && src in v1.cache.at && !Held(v1, src) && !Held(v1, dst)
    ensures Agree(v1.store, MoveOver(MoveClear(v1, dst), src, dst).store, {src, dst})
  {
    hide CacheOk, StoreOk, Committed, Moved, Val, Szc, Agree;
    var v2 := MoveClear(v1, dst);
    MoveClearOk(v1, src, dst);
    StillUnheld(v1, v2, src);
    CachedKnown(v2, src);
    UnheldStored(v2, src);
    var b := BufAt(v2.cache, v2.cache.at[src]);
    MovedOk(v2.sizes, v2.store, src, dst, b.info, b.ctl, Front(b.val, b.info.valSz));
    MoveClearAgrees(v1, dst);
    AgreeJoin(v1.store, v2.store, MoveOver(v2, src, dst).store, {dst}, {src, dst});
  }

  lemma MoveClearAgrees(v: Vinyl, dst: Key)
    requires Inv(v) && !Held(v, dst)
    ensures Agree(v.store, MoveClear(v, dst).store, {dst})
  {
    hide CacheOk, StoreOk, Committed, Agree, OldSz;
    AgreeSelf(v.store, {dst});
    if dst in v.store.recs {
      ForgottenOk(v.sizes, v.store, dst);
      CountersFree(v.sizes, v.store, Forgotten(v.store, dst), MoveClear(v, dst).store, {dst});
    }
  }

  lemma AgreeJoin(s: Store, s1: Store, s2: Store, ks: set<Key>, ms: set<Key>)
    requires Agree(s, s1, ks) && Agree(s1, s2, ms) && ks <= ms
    ensures Agree(s, s2, ms)
  {
    hide Val;
  }

  lemma MoveVersioned(v: Vinyl, src: Key, dst: Key, addr: nat, l: nat)
    requires Inv(v) && Evictable(v.cache) && MoveAddr(v, src, dst, addr)
    ensures Versioned(v, Move(v, src, dst, addr).v, l)
  {
    hide CacheOk, StoreOk, MoveLoad, MoveClear, MoveOver, Val, Agree, Versioned, Bump, Unbump;
    AgreeSelf(v.store, {});
    LineKnown(v, l);
    if Held(v, dst) { HeldRec(v, dst); }
    if src != dst && src in v.store.recs && !Held(v, src) && !Held(v, dst) {
      var v1 := MoveLoad(v, src, addr);
      var v3 := MoveOver(MoveClear(v1, dst), src, dst);
      MoveLoadOk(v, src, dst, addr);
      MoveLoadLines(v, src, addr, l);
      MoveRestLines(v1, src, dst, l);
      MoveAgrees(v1, src, dst);
      LineKnown(v1, l);
      if v1.cache.at[src] == l || (dst in v1.cache.at && v1.cache.at[dst] == l) {
        GoesOn(v, v3, l);
      } else {
        Elsewhere(v, v3, l, {src, dst});
      }
    } else {
      Elsewhere(v, v, l, {});
    }
  }

  /** Every request item. */
  lemma ItemVersioned(v: Vinyl, it: Item, l: nat)
    requires StoreInv(v) && Evictable(v.cache) && LegalItem(v, it)
    ensures Versioned(v, DoItem(v, it).v, l)
  {
    hide Inv, LogOk, Versioned, Acquire, ReleaseLine, Erase, Move, Fetch, Flush, Resolve, Evictable, ClientOk;
    hide AcquireAddr, ReleaseAddr, MoveAddr, FetchAddr;
    match it
    case AcquireItem(f, key, valMax, addr) => AcquireVersioned(v, f, key, valMax, addr, l);
    case ReleaseItem(f, to, e, addr) =>
      if Resolve(v, to).Some? {
        ResolvedMeans(v, to);
        ReleaseVersioned(v, f, Resolve(v, to).value, e, addr, l);
      } else {
        NothingVersioned(v, l);
      }
    case EraseItem(key) => EraseVersioned(v, key, l);
    case MoveItem(src, dst, addr) => MoveVersioned(v, src, dst, addr, l);
    case FetchItem(key, addr) => FetchVersioned(v, key, addr, l);
    case FlushItem(key) => FlushVersioned(v, key, l);
  }

  lemma NothingVersioned(v: Vinyl, l: nat)
    requires Inv(v)
    ensures Versioned(v, v, l)
  {
    hide Inv;
    AgreeSelf(v.store, {});
    Elsewhere(v, v, l, {});
  }

  // ----- whole runs ------------------------------------------------------------------------------

  function BatchShift(s: System, c: nat, items: seq<Item>, l: nat): nat
    requires c in s.clients
    decreases |items|
  {
    if items == [] then 0
    else
      var s' := StepItem(s, c, items[0]);
      Shift(LineAt(s.v.cache, l), LineAt(s'.v.cache, l)) + BatchShift(s', c, items[1..], l)
  }

  function EventShift(s: System, e: Event, l: nat): nat {
    if e.Request? && e.client in s.clients && !OverQuota(s, e.client, e.items)
    then BatchShift(s, e.client, e.items, l) else 0
  }

  /** How many versions line l goes through in a run, not counting cancelled modifies. */
  function RunShift(s: System, es: seq<Event>, l: nat): nat
    decreases |es|
  {
    if es == [] then 0 else EventShift(s, es[0], l) + RunShift(Do(s, es[0]), es[1..], l)
  }

  /** After n versions. */
  ghost predicate After(v: Vinyl, v': Vinyl, l: nat, n: nat) {
    && |v'.cache.lines| == |v.cache.lines|
    && Settled(LineAt(v'.cache, l)) == (Settled(LineAt(v.cache, l)) + n) % WRAP
    && (n == 0 ==> PairOf(v', l) == PairOf(v, l))
  }

  lemma AfterMore(v: Vinyl, v1: Vinyl, v2: Vinyl, l: nat, n: nat, m: nat)
    requires After(v, v1, l, n) && After(v1, v2, l, m)
    ensures After(v, v2, l, n + m)
  {
    AddWrapped(Settled(LineAt(v.cache, l)), n, m);
  }

  lemma AddWrapped(a: nat, n: nat, m: nat)
    ensures ((a + n) % 0x1_0000_0000 + m) % 0x1_0000_0000 == (a + n + m) % 0x1_0000_0000
  {
  }

  lemma {:induction false} BatchVersioned(s: System, c: nat, items: seq<Item>, l: nat)
    requires SysInv(s) && c in s.clients && LegalBatch(s, c, items) && Uniform(items)
    requires items != [] && items[0].AcquireItem? ==> |items| <= s.clients[c].rem
    ensures After(s.v, Batch(s, c, items).v, l, BatchShift(s, c, items, l))
    decreases |items|
  {
    hide Inv, LogOk, LegalItem, DoItem, Evictable, Carries, QuotaOk, After, PairOf, Settled;
    if items == [] {
      NothingVersioned(s.v, l);
      AfterNothing(s.v, l);
    } else {
      AlwaysEvictable(s);
      ItemVersioned(s.v, items[0], l);
      StepOk(s, c, items[0]);
      var s' := StepItem(s, c, items[0]);
      assert s'.clients[c].rem >= s.clients[c].rem - 1;
      assert Uniform(items[1..]);
      BatchVersioned(s', c, items[1..], l);
      AfterItem(s.v, s'.v, l);
      AfterMore(s.v, s'.v, Batch(s', c, items[1..]).v, l, Shift(LineAt(s.v.cache, l), LineAt(s'.v.cache, l)),
                BatchShift(s', c, items[1..], l));
    }
  }

  lemma AfterItem(v: Vinyl, v': Vinyl, l: nat)
    requires Versioned(v, v', l)
    ensures After(v, v', l, Shift(LineAt(v.cache, l), LineAt(v'.cache, l)))
  {
  }

  lemma AfterNothing(v: Vinyl, l: nat)
    requires Versioned(v, v, l)
    ensures After(v, v, l, 0)
  {
  }

  lemma EventVersioned(s: System, e: Event, l: nat)
    requires SysInv(s) && Legal(s, e)
    ensures After(s.v, Do(s, e).v, l, EventShift(s, e, l))
  {
    hide Inv, LogOk, QuotaOk, LegalBatch, Batch, BatchShift, After, ClientWrite, Shift, Settled, PairOf;
    NothingVersioned(s.v, l);
    AfterNothing(s.v, l);
    match e
    case Request(c, items) =>
      if c in s.clients && !OverQuota(s, c, items) { BatchVersioned(s, c, items, l); }
    case Write(m, info, val) => WriteAfter(s.v, m, info, val, l);
    case _ =>
  }

  lemma WriteAfter(v: Vinyl, m: nat, info: Info, val: seq<int>, l: nat)
    requires Inv(v)
    ensures After(v, ClientWrite(v, m, info, val), l, 0)
  {
    hide Inv, Val;
    LineKnown(v, l);
    SettledSmall(LineAt(v.cache, l));
  }

  lemma {:induction false} RunVersioned(s: System, es: seq<Event>, l: nat)
    requires SysInv(s) && LegalRun(s, es)
    ensures After(s.v, Run(s, es).v, l, RunShift(s, es, l))
    decreases |es|
  {
    hide SysInv, Legal, Do, After, EventShift, Carries;
    if es == [] {
      SysNothing(s, l);
    } else {
      EventVersioned(s, es[0], l);
      EventOk(s, es[0]);
      RunVersioned(Do(s, es[0]), es[1..], l);
      AfterMore(s.v, Do(s, es[0]).v, Run(s, es).v, l, EventShift(s, es[0], l), RunShift(Do(s, es[0]), es[1..], l));
    }
  }

  lemma SysNothing(s: System, l: nat)
    requires SysInv(s)
    ensures After(s.v, s.v, l, 0)
  {
    hide Inv, LogOk, QuotaOk, After;
    NothingVersioned(s.v, l);
    AfterNothing(s.v, l);
  }

  /** Two states of a run, l not held for modify in either: if its version is the same and
      it went through fewer than 2^32 versions in between, it caches the same key with the
      same info and the same value, or nothing both times. */
  lemma SameVersionSamePair(s: System, es: seq<Event>, l: nat)
    requires SysInv(s) && LegalRun(s, es) && l < |s.v.cache.lines| && RunShift(s, es, l) < 0x1_0000_0000
    requires var x, y := LineAt(s.v.cache, l), LineAt(Run(s, es).v.cache, l); x.ref >= 0 && y.ref >= 0 && x.ver == y.ver
    ensures var v, v' := s.v, Run(s, es).v; var b, b' := BufAt(v.cache, l), BufAt(v'.cache, l);
      && LineAt(v'.cache, l).key == LineAt(v.cache, l).key
      && (LineAt(v.cache, l).key.Some? ==>
            b'.info == b.info && Front(b'.val, b'.info.valSz) == Front(b.val, b.info.valSz))
  {
    hide LegalRun, Run, RunShift, PairOf, QuotaOk, LogOk;
    RunVersioned(s, es, l);
    RunOk(s, es);
    LineKnown(s.v, l);
    WrapsBack(LineAt(s.v.cache, l).ver, RunShift(s, es, l));
    CachedPair(s.v, l);
    CachedPair(Run(s, es).v, l);
  }

  lemma WrapsBack(a: nat, n: nat)
    requires a < 0x1_0000_0000 && n < 0x1_0000_0000 && (a + n) % 0x1_0000_0000 == a
    ensures n == 0
  {
  }

  lemma CachedPair(v: Vinyl, l: nat)
    requires Inv(v) && LineAt(v.cache, l).ref >= 0
    ensures var x := LineAt(v.cache, l); var b := BufAt(v.cache, l);
      && (x.key.None? <==> PairOf(v, l).None?)
      && (x.key.Some? ==> PairOf(v, l) == Some((x.key.value, Content(b.info, Front(b.val, b.info.valSz)))))
  {
    hide CacheOk, StoreOk, Szc;
    LineKnown(v, l);
    if LineAt(v.cache, l).key.Some? { CachedKnown(v, KeyAt(v.cache, l)); }
  }
}
