/** What every item does to the cache: which lines it touches, what it leaves in them and
    where it puts them in the eviction sequence. */
module VinylEffect {
  import opened Basics
  import opened VinylTypes
  import opened VinylStep
  import opened VinylInv
  import opened VinylOps

  /** The eviction sequence differs at most in the place of l, which is where p asks. */
  predicate Placed(o: seq<nat>, o': seq<nat>, l: nat, p: Prio) {
    && Without(o', l) == Without(o, l)
    && (p.Mru? ==> o' != [] && o'[|o'| - 1] == l)
    && (p.Lru? ==> o' != [] && o'[0] == l)
    && (p.Unc? ==> o' == o)
  }

  /** Only the lines in ls changed. */
  ghost predicate Only(v: Vinyl, v': Vinyl, ls: set<nat>) {
    |v'.cache.lines| == |v.cache.lines| && forall m: nat | m !in ls :: LineAt(v'.cache, m) == LineAt(v.cache, m)
  }

  /** Line l caches the committed pair of key, in the tightest size class. */
  ghost predicate Copies(v: Vinyl, l: nat, key: Key) {
    var b := BufAt(v.cache, l);
    && ValidSizes(v.sizes) && l < |v.cache.lines| && v.cache.lines[l].key == Some(key) && v.cache.lines[l].buf.Some?
    && key in v.cache.at && v.cache.at[key] == l && Stored(v.store, key)
    && b.key == key && b.info == v.store.recs[key].info && Front(b.val, b.info.valSz) == Val(v.store, key)
    && b.info.valSz <= ValMax(v.sizes) && b.szc == Szc(v.sizes, b.info.valSz)
  }

  predicate FreeLine(v: Vinyl, l: nat) {
    LineAt(v.cache, l).key == None && LineAt(v.cache, l).buf == None && LineAt(v.cache, l).ref == 0
  }

  lemma CopyKnown(v: Vinyl, key: Key)
    requires Inv(v) && key in v.cache.at && LineAt(v.cache, v.cache.at[key]).ref >= 0
    ensures Copies(v, v.cache.at[key], key)
  {
    hide CacheOk, StoreOk, Szc, Val;
    CachedKnown(v, key);
  }

  lemma PrioritizedPlaced(c: Cache, l: nat, p: Prio)
    ensures Placed(c.order, Prioritize(c, l, p).order, l, p)
  {
    PrioritizePlaces(c, l, p);
  }

  /** Loading takes the first line in the sequence that nobody holds, and uncaches what
      that line cached. */
  lemma LoadEffect(v: Vinyl, key: Key, b: Buf, ref: int, p: Prio)
    requires Inv(v) && Evictable(v.cache) && key !in v.cache.at
    ensures var c' := Load(v.cache, key, b, ref, p); var l := Victim(v.cache.lines, v.cache.order);
      && l < |v.cache.lines| && v.cache.lines[l].ref == 0 && key in c'.at && c'.at[key] == l
      && c'.lines == v.cache.lines[l := Line(Some(key), Some(b), Bump(Bump(v.cache.lines[l].ver)), ref)]
      && Placed(v.cache.order, c'.order, l, p)
      && (forall k | k != key :: k in c'.at <==> k in v.cache.at && v.cache.at[k] != l)
  {
    hide StoreOk, Placed, Victim, LinesOk, AddrOk, OrderOk, KeyOk;
    VictimStored(v.sizes, v.store, v.cache);
    var l := Victim(v.cache.lines, v.cache.order);
    PrioritizedPlaced(Install(Drop(v.cache, l), l, key, b, ref), l, p);
  }

  // ----- FETCH, FLUSH, ERASE -----------------------------------------------------------------------

  /** FETCH of a stored pair has it cached afterwards, most recently used, held as it was.
      A pair that was not cached takes the first line in the sequence that nobody holds,
      with a new version; a pair that was cached stays where it was. Nothing else in the
      cache changes, but that what the line cached before is uncached. */
  lemma FetchEffect(v: Vinyl, key: Key, addr: nat)
    requires Inv(v) && Evictable(v.cache) && FetchAddr(v, key, addr) && Stored(v.store, key)
    ensures var v' := Fetch(v, key, addr); var m := Victim(v.cache.lines, v.cache.order);
      && key in v'.cache.at
      && var l := v'.cache.at[key];
      && Placed(v.cache.order, v'.cache.order, l, Mru) && Only(v, v', {l})
      && (key in v.cache.at ==> LineAt(v'.cache, l) == LineAt(v.cache, l) && v'.cache.at == v.cache.at)
      && (key !in v.cache.at ==>
            && l == m && LineAt(v'.cache, l).ref == 0
            && LineAt(v'.cache, l).ver == Bump(Bump(LineAt(v.cache, l).ver)) && BufAt(v'.cache, l).addr == addr
            && (forall k | k != key :: k in v'.cache.at <==> k in v.cache.at && v.cache.at[k] != m))
      && (LineAt(v'.cache, l).ref >= 0 ==> Copies(v', l, key))
  {
    hide CacheOk, StoreOk, Placed, Load, ReadBuf, Copies, BufOk, Victim;
    var v' := Fetch(v, key, addr);
    FetchOk(v, key, addr);
    if key in v.cache.at {
      CachedKnown(v, key);
      PrioritizedPlaced(v.cache, v.cache.at[key], Mru);
    } else {
      LoadEffect(v, key, ReadBuf(v, key, v.store.recs[key].info.valSz, addr), 0, Mru);
      ReadAddr(v, key, v.store.recs[key].info.valSz, addr);
    }
    if LineAt(v'.cache, v'.cache.at[key]).ref >= 0 { CopyKnown(v', key); }
  }

  lemma ReadAddr(v: Vinyl, key: Key, room: nat, addr: nat)
    requires key in v.store.recs
    ensures ReadBuf(v, key, room, addr).addr == addr
  {
  }

  lemma FetchNothing(v: Vinyl, key: Key, addr: nat)
    requires !Stored(v.store, key)
    ensures Fetch(v, key, addr) == v
  {
  }

  /** The line of a key is emptied and next in turn, with a new version. */
  ghost predicate Emptied(v: Vinyl, v': Vinyl, key: Key)
    requires key in v.cache.at
  {
    var l := v.cache.at[key];
    && Only(v, v', {l}) && FreeLine(v', l) && LineAt(v'.cache, l).ver == Bump(LineAt(v.cache, l).ver)
    && Placed(v.cache.order, v'.cache.order, l, Lru) && v'.cache.at == v.cache.at - {key}
  }

  lemma DropEmpties(v: Vinyl, key: Key, s': Store)
    requires Inv(v) && key in v.cache.at
    ensures Emptied(v, v.(cache := DropLru(v.cache, v.cache.at[key]), store := s'), key)
  {
    hide CacheOk, StoreOk, Placed, BufOk;
    CachedKnown(v, key);
    PrioritizedPlaced(Drop(v.cache, v.cache.at[key]), v.cache.at[key], Lru);
  }

  /** FLUSH empties the line of a cached key that nobody holds, puts the line of a held one
      next in turn, and does nothing to a key that is not cached. */
  lemma FlushEffect(v: Vinyl, key: Key)
    requires Inv(v)
    ensures var v' := Flush(v, key);
      if key !in v.cache.at then v' == v
      else if Held(v, key) then
        && v' == v.(cache := v.cache.(order := v'.cache.order))
        && Placed(v.cache.order, v'.cache.order, v.cache.at[key], Lru)
      else Emptied(v, v', key)
  {
    hide CacheOk, StoreOk, Placed, BufOk, DropLru, Emptied;
    if key in v.cache.at {
      CachedKnown(v, key);
      PrioritizedPlaced(v.cache, v.cache.at[key], Lru);
      DropEmpties(v, key, v.store);
    }
  }

  /** ERASE fails with KEY exactly on a missing key and with AGAIN exactly on a held one;
      a successful one empties the key's line if it has one and leaves every other. */
  lemma EraseEffect(v: Vinyl, key: Key)
    requires Inv(v)
    ensures var r := Erase(v, key);
      && (r.err == ErrKey <==> key !in v.store.recs)
      && (r.err == ErrAgain <==> Held(v, key))
      && (r.err == Success ==> if key in v.cache.at then Emptied(v, r.v, key) else r.v.cache == v.cache)
      && (r.err == Success ==>
            Stored(v.store, key) && r.v.store.log
              == v.store.log + [DeadBlk(key, v.store.recs[key].info, v.store.recs[key].ctl)])
  {
    hide CacheOk, StoreOk, DropLru, Emptied;
    if Held(v, key) { HeldRec(v, key); }
    if key in v.store.recs && !Held(v, key) { UnheldStored(v, key); }
    if key in v.cache.at { DropEmpties(v, key, Erased(v.store, key)); }
  }

  // ----- ACQUIRE -------------------------------------------------------------------------------------

  /** The room a modify asks for: for its value unless that is ignored, and for valMax. */
  function RoomFor(v: Vinyl, f: Flags, key: Key, valMax: nat): nat
    requires key in v.store.recs
  {
    if f.ignore then valMax else Max(v.store.recs[key].info.valSz, valMax)
  }

  /** An object that is replaced exactly when its size class changes. */
  predicate Reallocated(b: Buf, b': Buf, szc: nat, addr: nat) {
    b'.szc == szc && b'.addr == if szc == b.szc then b.addr else addr
  }

  /** A granted acquire of a cached pair touches only its line. Readers leave everything
      but the count alone; a modify takes the line one version on, moves it as asked and
      gets an object of the tightest class with the room asked for. */
  lemma AcquireCachedEffect(v: Vinyl, f: Flags, key: Key, valMax: nat, addr: nat)
    requires Inv(v) && key in v.cache.at && Acquire(v, f, key, valMax, addr).err == Success
    ensures var v' := Acquire(v, f, key, valMax, addr).v; var l := v.cache.at[key];
      var x, y := LineAt(v.cache, l), LineAt(v'.cache, l);
      && Only(v, v', {l}) && v'.cache.at == v.cache.at && v'.store == v.store
      && Placed(v.cache.order, v'.cache.order, l, if f.modifying then f.prio else Unc)
      && (!f.modifying ==> y == x.(ref := x.ref + 1))
      && (f.modifying ==>
            && x.ref == 0 && y.ref == -1 && y.key == x.key && y.ver == Bump(x.ver)
            && key in v.store.recs && RoomFor(v, f, key, valMax) <= ValMax(v.sizes)
            && Reallocated(BufAt(v.cache, l), BufAt(v'.cache, l), Szc(v.sizes, RoomFor(v, f, key, valMax)), addr))
  {
    hide CacheOk, StoreOk, Placed, Szc, Val, Region, Bump;
    CachedKnown(v, key);
    var l := v.cache.at[key];
    PrioritizedPlaced(v.cache, l, Unc);
    if f.modifying {
      var b := if f.ignore then BufAt(v.cache, l).(info := BufAt(v.cache, l).info.(valSz := 0)) else BufAt(v.cache, l);
      ClassFits(v.sizes, Max(b.info.valSz, valMax));
      var b' := Resize(v.sizes, b, ClassOf(v.sizes, Max(b.info.valSz, valMax)), b.info.valSz, addr);
      PrioritizedPlaced(SetLine(v.cache, l, b', Bump(LineAt(v.cache, l).ver), -1), l, f.prio);
    }
  }

  /** A granted acquire of a pair that is not cached takes the first line in the sequence
      that nobody holds. */
  lemma AcquireMissEffect(v: Vinyl, f: Flags, key: Key, valMax: nat, addr: nat)
    requires Inv(v) && Evictable(v.cache) && AcquireAddr(v, f, key, valMax, addr) && key !in v.cache.at
    requires Acquire(v, f, key, valMax, addr).err == Success
    ensures var v' := Acquire(v, f, key, valMax, addr).v; var l := Victim(v.cache.lines, v.cache.order);
      && Only(v, v', {l}) && key in v'.cache.at && v'.cache.at[key] == l
      && (forall k | k != key :: k in v'.cache.at <==> k in v.cache.at && v.cache.at[k] != l)
      && Placed(v.cache.order, v'.cache.order, l, f.prio)
      && LineAt(v'.cache, l).ver == Bump(Bump(LineAt(v.cache, l).ver)) && BufAt(v'.cache, l).addr == addr
      && LineAt(v'.cache, l).ref == (if f.modifying then -1 else 1)
      && (if !f.modifying then Copies(v', l, key)
          else
            var room := if key in v.store.recs then RoomFor(v, f, key, valMax) else valMax;
            room <= ValMax(v.sizes) && BufAt(v'.cache, l).szc == Szc(v.sizes, room))
  {
    hide CacheOk, StoreOk, Placed, Szc, Val, Region, Load, Victim, Copies;
    AcquireOk(v, f, key, valMax, addr);
    var v' := Acquire(v, f, key, valMax, addr).v;
    if key in v.store.recs {
      InvKnown(v, key);
      var r := v.store.recs[key];
      var room := if !f.modifying then r.info.valSz else if !f.ignore then Max(r.info.valSz, valMax) else valMax;
      ClassFits(v.sizes, room);
      var b := ReadBuf(v, key, room, addr);
      var b' := if f.modifying && f.ignore
        then b.(info := r.info.(valSz := 0), val := Region(v.sizes, b.szc, [])) else b;
      LoadEffect(v, key, b', if f.modifying then -1 else 1, f.prio);
      if !f.modifying { CopyKnown(v', key); }
    } else {
      ClassFits(v.sizes, valMax);
      var szc := ClassOf(v.sizes, valMax);
      LoadEffect(v, key, Buf(addr, szc, Creating, key, NO_INFO, Region(v.sizes, szc, [])), -1, f.prio);
    }
  }

  /** Creating adds one record, marked as being created. */
  lemma CreateEffect(v: Vinyl, f: Flags, key: Key, valMax: nat, addr: nat)
    requires Inv(v) && key !in v.store.recs && Acquire(v, f, key, valMax, addr).err == Success
    ensures var s' := Acquire(v, f, key, valMax, addr).v.store;
      && f.modifying && f.create
      && key in s'.recs && !Stored(s', key) && s'.recs - {key} == v.store.recs && s'.log == v.store.log
      && s'.pairCnt == v.store.pairCnt + 1
  {
    hide CacheOk, StoreOk, Load, Region;
  }

  // ----- RELEASE ---------------------------------------------------------------------------------------

  /** What a release appends to the log. */
  function ReleaseBlocks(v: Vinyl, f: Flags, l: nat, e: Encoding): seq<Block> {
    var key := KeyAt(v.cache, l);
    var b := BufAt(v.cache, l);
    if LineAt(v.cache, l).ref > 0 || !f.modifying then []
    else if !f.erase then [PairBlk(key, b.info, Pair(e.raw, e.esz), Front(b.val, b.info.valSz))]
    else if Stored(v.store, key) then [DeadBlk(key, v.store.recs[key].info, v.store.recs[key].ctl)]
    else []
  }

  lemma ReleaseLogs(v: Vinyl, f: Flags, l: nat, e: Encoding, addr: nat)
    requires LineAt(v.cache, l).ref != 0
    requires Stored(v.store, KeyAt(v.cache, l)) <==> BufAt(v.cache, l).ctl != Creating
    ensures ReleaseLine(v, f, l, e, addr).store.log == v.store.log + ReleaseBlocks(v, f, l, e)
  {
    hide Refit;
  }

  /** RELEASE touches only the line released. A reader's leaves but the count; a commit and
      a cancel leave the committed pair cached with nobody holding it, one version on and
      one back; every other release empties the line. */
  lemma ReleaseEffect(v: Vinyl, f: Flags, l: nat, e: Encoding, addr: nat)
    requires Inv(v) && l < |v.cache.lines| && v.cache.lines[l].ref != 0
    requires ClientOk(v, f, l, e) && ReleaseAddr(v, f, l, addr)
    ensures var v' := ReleaseLine(v, f, l, e, addr); var key := KeyAt(v.cache, l);
      var x, y := LineAt(v.cache, l), LineAt(v'.cache, l);
      && key in v.cache.at && v.cache.at[key] == l && Only(v, v', {l})
      && v'.store.log == v.store.log + ReleaseBlocks(v, f, l, e)
      && (if x.ref > 0 then
            && y == x.(ref := x.ref - 1) && v'.cache.at == v.cache.at && v'.store == v.store
            && Placed(v.cache.order, v'.cache.order, l, f.prio)
          else if (f.modifying && !f.erase) || (!f.modifying && !f.ignore && Stored(v.store, key)) then
            && y.ref == 0 && y.key == x.key && v'.cache.at == v.cache.at && Copies(v', l, key)
            && y.ver == (if f.modifying then Bump(x.ver) else Unbump(x.ver))
            && (BufAt(v'.cache, l).szc == BufAt(v.cache, l).szc ==> BufAt(v'.cache, l).addr == BufAt(v.cache, l).addr)
            && (BufAt(v'.cache, l).szc != BufAt(v.cache, l).szc ==> BufAt(v'.cache, l).addr == addr)
            && Placed(v.cache.order, v'.cache.order, l, f.prio)
          else Emptied(v, v', key))
  {
    hide CacheOk, StoreOk, Placed, BufOk, Refit, Val, Written, Erased, Forgotten, Committed, Bump, Unbump, Copies;
    hide DropLru;
    hide Szc, ClientOk, FreeLine;
    HeldKnown(v, l);
    var key := KeyAt(v.cache, l);
    CachedKnown(v, key);
    HeldAtMost(v, l);
    ReleasedStored(v, l);
    ReleaseLogs(v, f, l, e, addr);
    ReleaseOk(v, f, l, e, addr);
    var v' := ReleaseLine(v, f, l, e, addr);
    PrioritizedPlaced(v.cache, l, f.prio);
    DropEmpties(v, key, v'.store);
    RefitMoves(v.sizes, BufAt(v.cache, l), addr);
    if v.cache.lines[l].ref < 0 {
      if f.modifying && !f.erase {
        CommitPlaced(v, f, l, e, addr);
        CopyKnown(v', key);
      } else if !f.modifying && !f.ignore && Stored(v.store, key) {
        CancelPlaced(v, f, l, e, addr);
        CopyKnown(v', key);
      }
    }
  }

  lemma HeldAtMost(v: Vinyl, l: nat)
    requires Inv(v) && l < |v.cache.lines|
    ensures v.cache.lines[l].ref >= -1
  {
    hide StoreOk, AddrOk, OrderOk, Szc, Val;
    assert LineOk(v.sizes, v.store, v.cache.lines[l]);
  }

  lemma ReleasedStored(v: Vinyl, l: nat)
    requires Inv(v) && l < |v.cache.lines| && v.cache.lines[l].ref != 0
    ensures Stored(v.store, KeyAt(v.cache, l)) <==> BufAt(v.cache, l).ctl != Creating
  {
    hide CacheOk, StoreOk, Szc, Val;
    HeldKnown(v, l);
    CachedKnown(v, KeyAt(v.cache, l));
  }

  lemma RefitMoves(sizes: seq<nat>, b: Buf, addr: nat)
    ensures var b' := Refit(sizes, b, addr); b'.addr == if b'.szc == b.szc then b.addr else addr
  {
    hide Region;
  }

  lemma CommitPlaced(v: Vinyl, f: Flags, l: nat, e: Encoding, addr: nat)
    requires l < |v.cache.lines|
    ensures var v' := Commit(v, f, l, e, addr); var x, y := LineAt(v.cache, l), LineAt(v'.cache, l);
      && Only(v, v', {l}) && v'.cache.at == v.cache.at && Placed(v.cache.order, v'.cache.order, l, f.prio)
      && y.ref == 0 && y.key == x.key && y.ver == Bump(x.ver)
      && BufAt(v'.cache, l).addr == Refit(v.sizes, BufAt(v.cache, l), addr).addr
      && BufAt(v'.cache, l).szc == Refit(v.sizes, BufAt(v.cache, l), addr).szc
  {
    hide Placed, Refit, Bump, Written;
    PrioritizedPlaced(v.cache, l, f.prio);
  }

  lemma CancelPlaced(v: Vinyl, f: Flags, l: nat, e: Encoding, addr: nat)
    requires l < |v.cache.lines| && LineAt(v.cache, l).ref < 0 && BufAt(v.cache, l).ctl != Creating
    requires !f.modifying && !f.ignore
    ensures var v' := ReleaseLine(v, f, l, e, addr); var x, y := LineAt(v.cache, l), LineAt(v'.cache, l);
      && Only(v, v', {l}) && v'.cache.at == v.cache.at && Placed(v.cache.order, v'.cache.order, l, f.prio)
      && y.ref == 0 && y.key == x.key && y.ver == Unbump(x.ver)
      && BufAt(v'.cache, l) == Refit(v.sizes, BufAt(v.cache, l), addr)
  {
    hide Placed, Refit, Unbump;
    PrioritizedPlaced(v.cache, l, f.prio);
  }

  // ----- MOVE ---------------------------------------------------------------------------------------------

  /** MOVE fails with KEY exactly if src is missing and with AGAIN exactly if one of the two
      is held; the held destination is tested first. */
  lemma MoveErrors(v: Vinyl, src: Key, dst: Key, addr: nat)
    requires Inv(v)
    ensures var err := Move(v, src, dst, addr).err;
      && (err == ErrKey <==> src != dst && src !in v.store.recs && !Held(v, dst))
      && (err == ErrAgain <==> src != dst && (Held(v, dst) || Held(v, src)))
      && (err == Success || err == ErrKey || err == ErrAgain)
  {
    hide Inv, MoveLoad, MoveClear, MoveOver;
    if Held(v, dst) { HeldRec(v, dst); }
    if Held(v, src) { HeldRec(v, src); }
  }

  /** Where a move finds or puts src: its own line, or the first in the sequence that
      nobody holds. */
  function MoveLine(v: Vinyl, src: Key): nat {
    if src in v.cache.at then v.cache.at[src] else Victim(v.cache.lines, v.cache.order)
  }

  /** The line dst still has once src is loaded. */
  function ClearedLine(v: Vinyl, src: Key, dst: Key): Option<nat> {
    if dst in v.cache.at && v.cache.at[dst] != MoveLine(v, src) then Some(v.cache.at[dst]) else None
  }

  /** The line emptied for dst is next in turn, then the line loaded for src; lines keep
      their turns otherwise. */
  predicate MovePlaced(o: seq<nat>, o': seq<nat>, l: nat, loaded: bool, d: Option<nat>) {
    if d.None? then Placed(o, o', l, if loaded then Lru else Unc)
    else if !loaded then Placed(o, o', d.value, Lru)
    else |o'| >= 2 && o'[0] == d.value && o'[1] == l && o'[2..] == Without(Without(o, l), d.value)
  }

  /** A successful MOVE leaves dst cached where src was or was loaded, with nobody holding
      it and a new version; src is not cached any more, the line dst had is empty and next
      in turn, and nothing else in the cache changes but what the load evicts. */
  lemma MoveEffect(v: Vinyl, src: Key, dst: Key, addr: nat)
    requires Inv(v) && Evictable(v.cache) && MoveAddr(v, src, dst, addr)
    requires src != dst && Move(v, src, dst, addr).err == Success
    ensures var v' := Move(v, src, dst, addr).v; var l := MoveLine(v, src); var d := ClearedLine(v, src, dst);
      && dst in v'.cache.at && v'.cache.at[dst] == l && src !in v'.cache.at && LineAt(v'.cache, l).ref == 0
      && Copies(v', l, dst)
      && Only(v, v', {l} + if d.Some? then {d.value} else {})
      && LineAt(v'.cache, l).ver == (if src in v.cache.at then Bump(LineAt(v.cache, l).ver)
                                     else Bump(Bump(LineAt(v.cache, l).ver)))
      && (d.Some? ==> FreeLine(v', d.value) && LineAt(v'.cache, d.value).ver == Bump(LineAt(v.cache, d.value).ver))
      && (forall k | k != src && k != dst ::
            k in v'.cache.at <==> k in v.cache.at && (src in v.cache.at || v.cache.at[k] != l))
      && MovePlaced(v.cache.order, v'.cache.order, l, src !in v.cache.at, d)
  {
    hide CacheOk, StoreOk, MoveLoad, MoveClear, MoveOver, Val, Copies, Committed, Bump, MovePlaced;
    MoveOk(v, src, dst, addr);
    var v1 := MoveLoad(v, src, addr);
    MoveLoadOk(v, src, dst, addr);
    MoveLoadEffect(v, src, dst, addr);
    MoveRestEffect(v1, src, dst);
    MoveOrder(v, src, dst, addr);
    CopyKnown(Move(v, src, dst, addr).v, dst);
  }

  lemma MoveOrder(v: Vinyl, src: Key, dst: Key, addr: nat)
    requires Inv(v) && Evictable(v.cache) && src != dst && src in v.store.recs && !Held(v, src) && !Held(v, dst)
    requires MoveAddr(v, src, dst, addr)
    ensures var v1 := MoveLoad(v, src, addr); var v3 := MoveOver(MoveClear(v1, dst), src, dst);
      MovePlaced(v.cache.order, v3.cache.order, MoveLine(v, src), src !in v.cache.at, ClearedLine(v, src, dst))
  {
    hide CacheOk, StoreOk, Val, Victim, Without, Moved, BufOk, ReadBuf;
    var v1 := MoveLoad(v, src, addr);
    MoveLoadOk(v, src, dst, addr);
    MoveLoadEffect(v, src, dst, addr);
    if dst in v1.cache.at { CachedKnown(v1, dst); }
    if src in v.cache.at { CachedKnown(v, src); }
    if dst in v.cache.at { CachedKnown(v, dst); }
    var l := MoveLine(v, src);
    PrioritizedPlaced(v.cache, l, Lru);
    match ClearedLine(v, src, dst)
    case Some(d) =>
      PrioritizedPlaced(v.cache, d, Lru);
      FirstWithout(l, Without(v.cache.order, l), d);
    case None =>
  }

  lemma FirstWithout(l: nat, o: seq<nat>, d: nat)
    requires d != l
    ensures Without([l] + o, d) == [l] + Without(o, d)
  {
    assert ([l] + o)[1..] == o;
  }

  lemma MoveLoadEffect(v: Vinyl, src: Key, dst: Key, addr: nat)
    requires Inv(v) && Evictable(v.cache) && src != dst && src in v.store.recs && !Held(v, src)
    ensures var v1 := MoveLoad(v, src, addr); var l := MoveLine(v, src);
      && Only(v, v1, {l}) && src in v1.cache.at && v1.cache.at[src] == l && LineAt(v1.cache, l).ref == 0
      && LineAt(v1.cache, l).ver == (if src in v.cache.at then Bump(LineAt(v.cache, l).ver)
                                     else Bump(Bump(LineAt(v.cache, l).ver)))
      && (forall k | k != src :: k in v1.cache.at <==> k in v.cache.at && (src in v.cache.at || v.cache.at[k] != l))
      && (forall k | k != src && k in v1.cache.at :: v1.cache.at[k] == v.cache.at[k])
  {
    hide CacheOk, StoreOk, BufOk, ReadBuf, Bump, Val, Load, Victim, Placed;
    if src in v.cache.at {
      CachedKnown(v, src);
    } else {
      LoadEffect(v, src, ReadBuf(v, src, v.store.recs[src].info.valSz, addr), 0, Lru);
      LoadKeepsAt(v.cache, src, ReadBuf(v, src, v.store.recs[src].info.valSz, addr), 0, Lru);
    }
  }

  lemma LoadKeepsAt(c: Cache, key: Key, b: Buf, ref: int, p: Prio)
    ensures forall k | k != key && k in Load(c, key, b, ref, p).at ::
        k in c.at && Load(c, key, b, ref, p).at[k] == c.at[k]
  {
    hide Victim;
  }

  lemma MoveRestEffect(v1: Vinyl, src: Key, dst: Key)
    requires Inv(v1) && src != dst && src in v1.cache.at && !Held(v1, src) && !Held(v1, dst)
    ensures var v3 := MoveOver(MoveClear(v1, dst), src, dst); var l := v1.cache.at[src];
      && dst in v3.cache.at && v3.cache.at[dst] == l && src !in v3.cache.at && LineAt(v3.cache, l).ref == 0
      && LineAt(v3.cache, l).ver == LineAt(v1.cache, l).ver
      && Only(v1, v3, {l} + if dst in v1.cache.at then {v1.cache.at[dst]} else {})
      && (dst in v1.cache.at ==>
            && v1.cache.at[dst] != l && FreeLine(v3, v1.cache.at[dst])
            && LineAt(v3.cache, v1.cache.at[dst]).ver == Bump(LineAt(v1.cache, v1.cache.at[dst]).ver))
      && (forall k | k != src && k != dst :: k in v3.cache.at <==> k in v1.cache.at)
  {
    hide CacheOk, StoreOk, BufOk, Bump, Val, Moved, Forgotten;
    CachedKnown(v1, src);
    if dst in v1.cache.at { CachedKnown(v1, dst); }
  }

  /** A move appends a block that names dst as source and destination, and dst's pair. */
  lemma MoveLogs(v: Vinyl, src: Key, dst: Key, addr: nat)
    requires Inv(v) && Evictable(v.cache) && MoveAddr(v, src, dst, addr)
    requires src != dst && Move(v, src, dst, addr).err == Success
    ensures Stored(v.store, src)
    ensures var r := v.store.recs[src]; var log := Move(v, src, dst, addr).v.store.log;
      |log| == |v.store.log| + 2 && log[..|v.store.log|] == v.store.log
      && log[|v.store.log|] == MoveBlk(dst, r.info, Pair(true, r.info.valSz), dst)
      && log[|v.store.log| + 1] == PairBlk(dst, r.info, Pair(true, r.info.valSz), Val(v.store, src))
  {
    hide CacheOk, StoreOk, MoveLoad, MoveClear, Val, Committed, Szc;
    MoveOk(v, src, dst, addr);
    UnheldStored(v, src);
    var v1 := MoveLoad(v, src, addr);
    MoveLoadOk(v, src, dst, addr);
    CachedKnown(v1, src);
    MoveClearOk(v1, src, dst);
  }

  // ----- a modify that is committed ---------------------------------------------------------------------------

  /** Acquiring a cached pair for modify, writing to it and committing puts what was written
      into the committed map and leaves the line two versions on. */
  lemma CommitRaises(v: Vinyl, f: Flags, key: Key, valMax: nat, addr: nat, info: Info, val: seq<int>,
                     g: Flags, e: Encoding, addr': nat)
    requires Inv(v) && Evictable(v.cache) && AcquireAddr(v, f, key, valMax, addr) && key in v.cache.at && f.modifying
    requires Acquire(v, f, key, valMax, addr).err == Success && g.modifying && !g.erase
    requires var l := v.cache.at[key]; var v1 := Acquire(v, f, key, valMax, addr).v;
      |val| == |BufAt(v1.cache, l).val| && info.valSz <= |val| && (e.raw ==> e.esz == info.valSz)
    requires var l := v.cache.at[key]; var v2 := ClientWrite(Acquire(v, f, key, valMax, addr).v, l, info, val);
      ReleaseAddr(v2, g, l, addr')
    ensures var l := v.cache.at[key];
      var v3 := ReleaseLine(ClientWrite(Acquire(v, f, key, valMax, addr).v, l, info, val), g, l, e, addr');
      && LineAt(v3.cache, l).ver == (LineAt(v.cache, l).ver + 2) % 0x1_0000_0000 && LineAt(v3.cache, l).ref == 0
      && Committed(v3.store) == Committed(v.store)[key := Content(info, val[..info.valSz])]
      && Copies(v3, l, key)
  {
    hide CacheOk, StoreOk, Committed, Copies, Placed, Acquire, ReleaseLine, Only, AcquireAddr, ReleaseAddr, Szc;
    var l := v.cache.at[key];
    var v1 := Acquire(v, f, key, valMax, addr).v;
    CachedKnown(v, key);
    AcquireOk(v, f, key, valMax, addr);
    AcquireCachedEffect(v, f, key, valMax, addr);
    ClientWriteOk(v1, l, info, val);
    CachedKnown(v1, key);
    var v2 := ClientWrite(v1, l, info, val);
    ReleaseOk(v2, g, l, e, addr');
    ReleaseEffect(v2, g, l, e, addr');
    TwiceBumped(LineAt(v.cache, l).ver);
  }

  lemma TwiceBumped(ver: nat)
    requires ver < 0x1_0000_0000
    ensures Bump(Bump(ver)) == (ver + 2) % 0x1_0000_0000
  {
  }
}
