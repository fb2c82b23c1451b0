/** Whole runs of a vinyl tile: clients that join, leave, send request batches and
    write to what they hold. */
module VinylRun {
  import opened Basics
  import opened VinylTypes
  import opened VinylStep
  import opened VinylInv
  import opened VinylOps
  import opened VinylQuota
  import opened VinylLog

  datatype Target = ToKey(key: Key) | ToAddr(addr: nat)

  /** One item of a request batch. addr is what data_alloc returns if it is asked. */
  datatype Item =
    | AcquireItem(f: Flags, key: Key, valMax: nat, addr: nat)
    | ReleaseItem(f: Flags, to: Target, e: Encoding, addr: nat)
    | EraseItem(key: Key)
    | MoveItem(src: Key, dst: Key, addr: nat)
    | FetchItem(key: Key, addr: nat)
    | FlushItem(key: Key)

  /** rem is an unsigned word in the source; an int here so that not underflowing is
      something to prove. */
  datatype Client = Client(rem: int, max: nat)
  datatype System = System(v: Vinyl, clients: map<nat, Client>, free: int)

  datatype Event =
    | Request(client: nat, items: seq<Item>)
    | Write(line: nat, info: Info, val: seq<int>)
    | Join(client: nat, max: nat)
    | Leave(client: nat)

  const QUOTA_MAX: nat := 65535

  // ----- steps -----------------------------------------------------------------------------

  function Resolve(v: Vinyl, to: Target): Option<nat> {
    match to
    case ToKey(key) => ByKey(v, key)
    case ToAddr(addr) => ByAddr(v.cache, addr, 0)
  }

  function DoItem(v: Vinyl, it: Item): Reply {
    match it
    case AcquireItem(f, key, valMax, addr) => Acquire(v, f, key, valMax, addr)
    case ReleaseItem(f, to, e, addr) => Release(v, f, Resolve(v, to), e, addr)
    case EraseItem(key) => Erase(v, key)
    case MoveItem(src, dst, addr) => Move(v, src, dst, addr)
    case FetchItem(key, addr) => Reply(Fetch(v, key, addr), Success)
    case FlushItem(key) => Reply(Flush(v, key), Success)
  }

  /** How a reply changes the sender's remaining quota. */
  function QuotaChange(it: Item, err: Err): int {
    if err != Success then 0
    else if it.AcquireItem? then -1
    else if it.ReleaseItem? then 1
    else 0
  }

  function StepItem(s: System, c: nat, it: Item): System
    requires c in s.clients
  {
    var r := DoItem(s.v, it);
    s.(v := r.v, clients := s.clients[c := s.clients[c].(rem := s.clients[c].rem + QuotaChange(it, r.err))])
  }

  function Batch(s: System, c: nat, items: seq<Item>): System
    requires c in s.clients
    decreases |items|
  {
    if items == [] then s else Batch(StepItem(s, c, items[0]), c, items[1..])
  }

  /** An acquire batch larger than the sender's remaining quota is refused as a whole. */
  predicate OverQuota(s: System, c: nat, items: seq<Item>)
    requires c in s.clients
  {
    items != [] && items[0].AcquireItem? && s.clients[c].rem < |items|
  }

  function Do(s: System, e: Event): System {
    match e
    case Request(c, items) => if c !in s.clients || OverQuota(s, c, items) then s else Batch(s, c, items)
    case Write(l, info, val) => s.(v := ClientWrite(s.v, l, info, val))
    case Join(c, max) =>
      if c in s.clients || max > s.free || max > QUOTA_MAX then s
      else s.(clients := s.clients[c := Client(max, max)], free := s.free - max)
    case Leave(c) =>
      if c !in s.clients || s.clients[c].rem != s.clients[c].max then s
      else s.(clients := s.clients - {c}, free := s.free + s.clients[c].max)
  }

  // ----- what clients and configuration owe ---------------------------------------------------

  /** The allocator returns an object that is free at that moment, a release meets RELEASE's demands, and the
      meta has room for a pair that is created. */
  ghost predicate LegalItem(v: Vinyl, it: Item) {
    match it
    case AcquireItem(f, key, valMax, addr) =>
      AcquireAddr(v, f, key, valMax, addr) && (Creates(v, f, key, valMax) ==> |v.store.recs| < v.pairMax)
    case ReleaseItem(f, to, e, addr) =>
      Resolve(v, to).Some? ==>
        ClientOk(v, f, Resolve(v, to).value, e) && ReleaseAddr(v, f, Resolve(v, to).value, addr)
    case MoveItem(src, dst, addr) => MoveAddr(v, src, dst, addr)
    case FetchItem(key, addr) => FetchAddr(v, key, addr)
    case EraseItem(_) => true
    case FlushItem(_) => true
  }

  /** The items of a batch are of one request type. */
  predicate Uniform(items: seq<Item>) {
    (forall i | 0 <= i < |items| :: items[i].AcquireItem?) || (forall i | 0 <= i < |items| :: !items[i].AcquireItem?)
  }

  ghost predicate LegalBatch(s: System, c: nat, items: seq<Item>)
    requires c in s.clients
    decreases |items|
  {
    items != [] ==> LegalItem(s.v, items[0]) && LegalBatch(StepItem(s, c, items[0]), c, items[1..])
  }

  ghost predicate Legal(s: System, e: Event) {
    e.Request? ==>
      && Uniform(e.items)
      && (e.client in s.clients && !OverQuota(s, e.client, e.items) ==> LegalBatch(s, e.client, e.items))
  }

  function Run(s: System, es: seq<Event>): System
    decreases |es|
  {
    if es == [] then s else Run(Do(s, es[0]), es[1..])
  }

  ghost predicate LegalRun(s: System, es: seq<Event>)
    decreases |es|
  {
    es != [] ==> Legal(s, es[0]) && LegalRun(Do(s, es[0]), es[1..])
  }

  /** A tile that has just booted or recovered: nothing cached, nobody joined. */
  ghost predicate Boot(s: System) {
    && ValidSizes(s.v.sizes) && StoreOk(s.v.sizes, s.v.store) && LogOk(s.v.store, s.v.pairMax)
    && |s.v.store.recs| <= s.v.pairMax && (forall k | k in s.v.store.recs :: Stored(s.v.store, k))
    && s.v.cache.at == map[] && OrderOk(s.v.cache) && 3 <= |s.v.cache.lines| <= 0xFFFF_FFFF
    && (forall l | 0 <= l < |s.v.cache.lines| ::
          s.v.cache.lines[l] == Line(None, None, s.v.cache.lines[l].ver, 0) && s.v.cache.lines[l].ver < 0x1_0000_0000)
    && s.clients == map[] && s.free == |s.v.cache.lines| - 1
  }

  // ----- quota -------------------------------------------------------------------------------------

  ghost function Remaining(m: map<nat, Client>): int {
    if m == map[] then 0 else var c :| c in m; m[c].rem + Remaining(m - {c})
  }

  lemma {:induction false} RemainingTake(m: map<nat, Client>, c: nat)
    requires c in m
    ensures Remaining(m) == m[c].rem + Remaining(m - {c})
    decreases |m|
  {
    var d :| d in m && Remaining(m) == m[d].rem + Remaining(m - {d});
    if d != c {
      RemainingTake(m - {d}, c);
      RemainingTake(m - {c}, d);
      assert m - {d} - {c} == m - {c} - {d};
    }
  }

  lemma RemainingPut(m: map<nat, Client>, c: nat, x: Client)
    ensures Remaining(m[c := x]) == x.rem + Remaining(m - {c})
  {
    RemainingTake(m[c := x], c);
    assert m[c := x] - {c} == m - {c};
  }

  lemma {:induction false} RemainingNonneg(m: map<nat, Client>)
    requires forall c | c in m :: m[c].rem >= 0
    ensures Remaining(m) >= 0
    decreases |m|
  {
    if m != map[] {
      var c :| c in m && Remaining(m) == m[c].rem + Remaining(m - {c});
      RemainingNonneg(m - {c});
    }
  }

  /** No quota is ever negative, and quota not yet given out, quota not yet used and
      acquires outstanding always add up to one less than the number of lines. */
  ghost predicate QuotaOk(s: System) {
    && s.free >= 0 && (forall c | c in s.clients :: s.clients[c].rem >= 0)
    && s.free + Remaining(s.clients) + Taken(s.v) == |s.v.cache.lines| - 1
    && |s.v.cache.lines| <= 0xFFFF_FFFF
  }

  ghost predicate StoreInv(v: Vinyl) {
    Inv(v) && LogOk(v.store, v.pairMax) && |v.store.recs| <= v.pairMax
  }

  ghost predicate SysInv(s: System) {
    StoreInv(s.v) && QuotaOk(s)
  }

  /** So every eviction a request asks for finds a line. */
  lemma AlwaysEvictable(s: System)
    requires SysInv(s)
    ensures Evictable(s.v.cache)
  {
    hide StoreInv, Remaining, Outstanding;
    RemainingNonneg(s.clients);
    IdleLine(s.v.cache.lines);
  }

  /** And a line never has too many readers for its 32-bit count: the check in front of
      an acquire for read cannot fire. */
  lemma ReadersFit(s: System, c: nat, l: nat)
    requires SysInv(s) && c in s.clients && s.clients[c].rem > 0 && l < |s.v.cache.lines|
    ensures s.v.cache.lines[l].ref < 0xFFFF_FFFE
  {
    hide StoreInv, Remaining, Outstanding;
    RemainingTake(s.clients, c);
    RemainingNonneg(s.clients - {c});
    HoldsBelow(s.v.cache.lines, l);
  }

  // ----- one item ------------------------------------------------------------------------------------

  /** A move that succeeds under a new name. */
  predicate Moves(v: Vinyl, it: Item) {
    it.MoveItem? && it.src != it.dst && DoItem(v, it).err == Success
  }

  /** What every item keeps, besides the invariant: the ledgers, the size of the cache,
      and a log free of move blocks unless the item moved a pair. */
  ghost predicate Carries(v: Vinyl, v': Vinyl, moved: bool) {
    && v'.sizes == v.sizes && v'.pairMax == v.pairMax
    && Ledger(v'.store, false) == Ledger(v.store, false) && Ledger(v'.store, true) == Ledger(v.store, true)
    && (NoMoves(v'.store.log) <==> NoMoves(v.store.log) && !moved)
  }

  lemma AcquireCarries(v: Vinyl, f: Flags, key: Key, valMax: nat, addr: nat)
    requires StoreInv(v) && Evictable(v.cache) && AcquireAddr(v, f, key, valMax, addr)
    requires Creates(v, f, key, valMax) ==> |v.store.recs| < v.pairMax
    ensures var v' := Acquire(v, f, key, valMax, addr).v; StoreInv(v') && Carries(v, v', false)
  {
    hide Inv, Live, Committed, Load, Resize, ReadBuf, Region, ClassOf, Recovers, Replay, BufAt, Put, Evictable;
    hide AcquireAddr;
    AcquireOk(v, f, key, valMax, addr);
    var s' := v.store.(recs := v.store.recs[key := Rec(Creating, NO_INFO, 0)], pairCnt := v.store.pairCnt + 1);
    if key !in v.store.recs {
      LedgerCreated(v.store, key, false);
      LedgerCreated(v.store, key, true);
      LogCreating(v.store, s', v.pairMax, key);
      assert s'.recs.Keys == v.store.recs.Keys + {key};
    }
  }

  lemma ReleaseCarries(v: Vinyl, f: Flags, l: nat, e: Encoding, addr: nat)
    requires StoreInv(v) && l < |v.cache.lines| && v.cache.lines[l].ref != 0
    requires ClientOk(v, f, l, e) && ReleaseAddr(v, f, l, addr)
    ensures var v' := ReleaseLine(v, f, l, e, addr); StoreInv(v') && Carries(v, v', false)
  {
    hide Inv, Live, Committed, Refit, LogOk, Written, Erased, Forgotten, DropLru, Prioritize, SetLine, NoMoves;
    hide Ledger, ReleaseAddr;
    ReleaseOk(v, f, l, e, addr);
    HeldKnown(v, l);
    var key := KeyAt(v.cache, l);
    HeldRec(v, key);
    var s := v.store;
    ReleaseCtl(v, l);
    var b := BufAt(v.cache, l);
    var val := Front(b.val, b.info.valSz);
    LogWritten(s, v.pairMax, key, b.info, Pair(e.raw, e.esz), val);
    LogErased(s, v.pairMax, key);
    StoreShrinks(s, key, b.info, Pair(e.raw, e.esz), val);
    if v.cache.lines[l].ref < 0 {
      if f.modifying && !f.erase {
        LedgerWritten(s, key, b.info, Pair(e.raw, e.esz), val, false);
        LedgerWritten(s, key, b.info, Pair(e.raw, e.esz), val, true);
      } else if !Stored(s, key) {
        ForgottenErased(s, key);
        LedgerErased(s, key, false);
        LedgerErased(s, key, true);
      } else if f.modifying {
        LedgerErased(s, key, false);
        LedgerErased(s, key, true);
      }
    }
  }

  lemma ForgottenErased(s: Store, k: Key)
    requires !Stored(s, k)
    ensures Erased(s, k) == Forgotten(s, k)
  {
  }

  lemma StoreShrinks(s: Store, k: Key, info: Info, ctl: Ctl, val: seq<int>)
    requires k in s.recs
    ensures |Erased(s, k).recs| <= |s.recs| && |Written(s, k, info, ctl, val).recs| == |s.recs|
  {
    assert Erased(s, k).recs.Keys == s.recs.Keys - {k};
    assert Written(s, k, info, ctl, val).recs.Keys == s.recs.Keys;
  }

  lemma ReleaseCtl(v: Vinyl, l: nat)
    requires Inv(v) && l < |v.cache.lines| && v.cache.lines[l].ref != 0
    ensures Stored(v.store, KeyAt(v.cache, l)) <==> BufAt(v.cache, l).ctl != Creating
  {
    hide CacheOk, StoreOk, Szc, Val;
    HeldKnown(v, l);
    CachedKnown(v, KeyAt(v.cache, l));
  }

  lemma EraseCarries(v: Vinyl, key: Key)
    requires StoreInv(v)
    ensures StoreInv(Erase(v, key).v) && Carries(v, Erase(v, key).v, false)
  {
    hide Inv, Live, Committed, LogOk, Erased, DropLru, NoMoves, Ledger;
    EraseOk(v, key);
    if key in v.store.recs {
      LogErased(v.store, v.pairMax, key);
      LedgerErased(v.store, key, false);
      LedgerErased(v.store, key, true);
      StoreShrinks(v.store, key, NO_INFO, Creating, []);
    }
  }

  lemma MoveCarries(v: Vinyl, src: Key, dst: Key, addr: nat)
    requires StoreInv(v) && Evictable(v.cache) && MoveAddr(v, src, dst, addr)
    ensures var r := Move(v, src, dst, addr);
      StoreInv(r.v) && Carries(v, r.v, Moves(v, MoveItem(src, dst, addr)))
  {
    hide Inv, Committed, LogOk, MoveLoad, MoveClear, MoveOver, Ledger, NoMoves, Evictable, MoveAddr, Held;
    MoveOk(v, src, dst, addr);
    if src != dst && Move(v, src, dst, addr).err == Success {
      var v1 := MoveLoad(v, src, addr);
      var v2 := MoveClear(v1, dst);
      MoveLoadOk(v, src, dst, addr);
      MoveLoadConfig(v, src, addr);
      MoveClearOk(v1, src, dst);
      StillUnheld(v1, v2, src);
      MoveClearCarries(v1, dst);
      MoveOverCarries(v2, src, dst);
    }
  }

  lemma MoveLoadConfig(v: Vinyl, src: Key, addr: nat)
    requires src in v.store.recs
    ensures MoveLoad(v, src, addr).pairMax == v.pairMax
  {
  }

  lemma MoveClearCarries(v: Vinyl, dst: Key)
    requires StoreInv(v) && !Held(v, dst)
    ensures var v' := MoveClear(v, dst);
      && v'.sizes == v.sizes && v'.pairMax == v.pairMax && v'.store.log == v.store.log
      && Ledger(v'.store, false) == Ledger(v.store, false) && Ledger(v'.store, true) == Ledger(v.store, true)
      && |v'.store.recs| <= |v.store.recs| && LogPositions(v'.store)
  {
    hide Inv, Ledger, OldSz, DropLru, Recovers, Replay;
    if dst in v.store.recs {
      UnheldStored(v, dst);
      LedgerCleared(v.store, dst, false);
      LedgerCleared(v.store, dst, true);
      assert MoveClear(v, dst).store.recs.Keys == v.store.recs.Keys - {dst};
    }
  }

  ghost predicate LogPositions(s: Store) {
    MovesSelfNamed(s.log) && forall k | k in s.recs && Stored(s, k) :: s.recs[k].pos < Size(s.log)
  }

  lemma MoveOverCarries(v: Vinyl, src: Key, dst: Key)
    requires Inv(v) && LogPositions(v.store) && |v.store.recs| <= v.pairMax
    requires src != dst && src in v.cache.at && !Held(v, src) && dst !in v.store.recs && dst !in v.cache.at
    ensures StoreInv(MoveOver(v, src, dst)) && Carries(v, MoveOver(v, src, dst), true)
  {
    hide CacheOk, StoreOk, Ledger, NoMoves, Moved, Committed, Size, Szc, Val, MovesSelfNamed;
    MoveOverOk(v, src, dst);
    CachedKnown(v, src);
    UnheldStored(v, src);
    var b := BufAt(v.cache, v.cache.at[src]);
    var val := Front(b.val, b.info.valSz);
    LogMoved(v.store, v.pairMax, src, dst, b.info, b.ctl, val);
    LedgerMoved(v.store, src, dst, b.info, b.ctl, val, false);
    LedgerMoved(v.store, src, dst, b.info, b.ctl, val, true);
    MovedCount(v.store, src, dst, b.info, b.ctl, val);
  }

  lemma MovedCount(s: Store, src: Key, dst: Key, info: Info, ctl: Ctl, val: seq<int>)
    requires src in s.recs && dst !in s.recs
    ensures |Moved(s, src, dst, info, ctl, val).recs| == |s.recs|
  {
    assert Moved(s, src, dst, info, ctl, val).recs.Keys == s.recs.Keys - {src} + {dst};
  }

  lemma ByAddrFinds(c: Cache, addr: nat, l: nat)
    ensures var r := ByAddr(c, addr, l);
      r.Some? ==>
        && r.value < |c.lines| && c.lines[r.value].ref != 0
        && c.lines[r.value].buf.Some? && c.lines[r.value].buf.value.addr == addr
    decreases |c.lines| - l
  {
  }

  /** A line somebody holds that the target means. */
  predicate Means(v: Vinyl, to: Target, l: nat) {
    && l < |v.cache.lines| && v.cache.lines[l].ref != 0
    && match to
       case ToKey(key) => v.cache.lines[l].key == Some(key)
       case ToAddr(addr) => v.cache.lines[l].buf.Some? && v.cache.lines[l].buf.value.addr == addr
  }

  lemma {:induction false} ByAddrMisses(c: Cache, addr: nat, l: nat, k: nat)
    requires l <= k < |c.lines| && c.lines[k].ref != 0 && c.lines[k].buf.Some? && c.lines[k].buf.value.addr == addr
    ensures ByAddr(c, addr, l).Some?
    decreases k - l
  {
    if l < k { ByAddrMisses(c, addr, l + 1, k); }
  }

  lemma ResolvedMeans(v: Vinyl, to: Target)
    requires Inv(v) && Resolve(v, to).Some?
    ensures Means(v, to, Resolve(v, to).value)
  {
    hide StoreOk, BufOk;
    match to
    case ToKey(key) => CachedKnown(v, key);
    case ToAddr(addr) => ByAddrFinds(v.cache, addr, 0);
  }

  lemma MeansResolved(v: Vinyl, to: Target, l: nat)
    requires Inv(v) && Means(v, to, l)
    ensures Resolve(v, to) == Some(l)
  {
    hide StoreOk, BufOk, OrderOk;
    HeldKnown(v, l);
    match to
    case ToKey(key) => CachedKnown(v, key);
    case ToAddr(addr) =>
      ByAddrMisses(v.cache, addr, 0, l);
      ByAddrFinds(v.cache, addr, 0);
  }

  /** RELEASE succeeds exactly if its target means a held line, and is invalid otherwise;
      there is never more than one such line, and that is the one released. */
  lemma ReleaseErrors(v: Vinyl, f: Flags, to: Target, e: Encoding, addr: nat, l: nat)
    requires Inv(v)
    ensures var err := DoItem(v, ReleaseItem(f, to, e, addr)).err;
      && (Means(v, to, l) ==> err == Success && Resolve(v, to) == Some(l))
      && (err != Success ==> err == ErrInval)
      && (err == Success ==> Resolve(v, to).Some? && Means(v, to, Resolve(v, to).value))
  {
    hide StoreOk, BufOk, ReleaseLine;
    if Resolve(v, to).Some? { ResolvedMeans(v, to); }
    if Means(v, to, l) { MeansResolved(v, to, l); }
  }

  /** Every request item, in every state. */
  lemma ItemOk(v: Vinyl, it: Item)
    requires StoreInv(v) && Evictable(v.cache) && LegalItem(v, it)
    ensures var r := DoItem(v, it);
      && StoreInv(r.v) && Carries(v, r.v, Moves(v, it))
      && Taken(r.v) == Taken(v) - QuotaChange(it, r.err) && |r.v.cache.lines| == |v.cache.lines|
  {
    hide Inv, LogOk, Ledger, NoMoves, Taken, Acquire, ReleaseLine, Erase, Move, Fetch, Flush, Resolve, Evictable;
    hide AcquireAddr, ReleaseAddr, MoveAddr, FetchAddr, ClientOk;
    match it
    case AcquireItem(f, key, valMax, addr) =>
      AcquireCarries(v, f, key, valMax, addr);
      AcquireTakes(v, f, key, valMax, addr);
    case ReleaseItem(f, to, e, addr) =>
      if Resolve(v, to).Some? {
        ResolvedMeans(v, to);
        ReleaseCarries(v, f, Resolve(v, to).value, e, addr);
        ReleaseReturns(v, f, Resolve(v, to).value, e, addr);
      }
    case EraseItem(key) =>
      EraseCarries(v, key);
      EraseTakes(v, key);
    case MoveItem(src, dst, addr) =>
      MoveCarries(v, src, dst, addr);
      MoveTakes(v, src, dst, addr);
    case FetchItem(key, addr) =>
      FetchOk(v, key, addr);
      FetchTakes(v, key, addr);
      FetchConfig(v, key, addr);
    case FlushItem(key) =>
      FlushOk(v, key);
      FlushTakes(v, key);
      FlushConfig(v, key);
  }

  lemma FetchConfig(v: Vinyl, key: Key, addr: nat)
    ensures Fetch(v, key, addr).sizes == v.sizes && Fetch(v, key, addr).pairMax == v.pairMax
  {
  }

  lemma FlushConfig(v: Vinyl, key: Key)
    ensures Flush(v, key).sizes == v.sizes && Flush(v, key).pairMax == v.pairMax
  {
  }

  // ----- batches, events, runs -------------------------------------------------------------------------

  lemma StepOk(s: System, c: nat, it: Item)
    requires SysInv(s) && c in s.clients && LegalItem(s.v, it) && (it.AcquireItem? ==> s.clients[c].rem > 0)
    ensures SysInv(StepItem(s, c, it)) && Carries(s.v, StepItem(s, c, it).v, Moves(s.v, it))
  {
    hide StoreInv, Carries, Moves, LegalItem, Evictable, Taken, DoItem, QuotaOk;
    AlwaysEvictable(s);
    ItemOk(s.v, it);
    StepQuota(s, c, it);
  }

  /** What an item takes from or returns to the lines it takes from or returns to its
      sender. */
  lemma StepQuota(s: System, c: nat, it: Item)
    requires QuotaOk(s) && c in s.clients && (it.AcquireItem? ==> s.clients[c].rem > 0)
    requires var r := DoItem(s.v, it);
      Taken(r.v) == Taken(s.v) - QuotaChange(it, r.err) && |r.v.cache.lines| == |s.v.cache.lines|
    ensures QuotaOk(StepItem(s, c, it))
  {
    hide Taken, DoItem, Remaining;
    var s' := StepItem(s, c, it);
    RemainingPut(s.clients, c, s'.clients[c]);
    RemainingTake(s.clients, c);
  }

  /** Some item of the batch moved a pair. */
  predicate BatchMoves(s: System, c: nat, items: seq<Item>)
    requires c in s.clients
    decreases |items|
  {
    items != [] && (Moves(s.v, items[0]) || BatchMoves(StepItem(s, c, items[0]), c, items[1..]))
  }

  lemma CarriesOn(v: Vinyl, v': Vinyl, v'': Vinyl, a: bool, b: bool)
    requires Carries(v, v', a) && Carries(v', v'', b)
    ensures Carries(v, v'', a || b)
  {
  }

  lemma {:induction false} BatchOk(s: System, c: nat, items: seq<Item>)
    requires SysInv(s) && c in s.clients && LegalBatch(s, c, items) && Uniform(items)
    requires items != [] && items[0].AcquireItem? ==> |items| <= s.clients[c].rem
    ensures SysInv(Batch(s, c, items)) && Carries(s.v, Batch(s, c, items).v, BatchMoves(s, c, items))
    decreases |items|
  {
    hide SysInv, LegalItem, Moves, DoItem;
    if items == [] {
      CarriesNothing(s.v);
    } else {
      StepOk(s, c, items[0]);
      var s' := StepItem(s, c, items[0]);
      assert s'.clients[c].rem >= s.clients[c].rem - 1;
      assert Uniform(items[1..]);
      BatchOk(s', c, items[1..]);
      hide Carries;
      CarriesOn(s.v, s'.v, Batch(s', c, items[1..]).v, Moves(s.v, items[0]), BatchMoves(s', c, items[1..]));
    }
  }

  lemma CarriesNothing(v: Vinyl)
    ensures Carries(v, v, false)
  {
  }

  predicate EventMoves(s: System, e: Event) {
    e.Request? && e.client in s.clients && !OverQuota(s, e.client, e.items) && BatchMoves(s, e.client, e.items)
  }

  lemma EventOk(s: System, e: Event)
    requires SysInv(s) && Legal(s, e)
    ensures SysInv(Do(s, e)) && Carries(s.v, Do(s, e).v, EventMoves(s, e))
  {
    hide StoreInv, Carries, LegalBatch, Batch, Taken, BatchMoves, ClientWrite;
    CarriesNothing(s.v);
    match e
    case Request(c, items) =>
      if c in s.clients && !OverQuota(s, c, items) { BatchOk(s, c, items); }
    case Write(l, info, val) => WriteOk(s.v, l, info, val);
    case Join(c, max) =>
      RemainingPut(s.clients, c, Client(max, max));
      if c !in s.clients { assert s.clients - {c} == s.clients; }
    case Leave(c) =>
      if c in s.clients { RemainingTake(s.clients, c); }
  }

  lemma WriteOk(v: Vinyl, l: nat, info: Info, val: seq<int>)
    requires StoreInv(v)
    ensures var v' := ClientWrite(v, l, info, val);
      StoreInv(v') && Carries(v, v', false) && Taken(v') == Taken(v) && |v'.cache.lines| == |v.cache.lines|
  {
    hide Inv, LogOk, Ledger, NoMoves, Taken;
    ClientWriteOk(v, l, info, val);
    WriteTakes(v, l, info, val);
  }

  lemma BootOk(s: System)
    requires Boot(s)
    ensures SysInv(s)
  {
    hide StoreOk, LogOk, Outstanding, BufOk;
    NothingHeld(s.v.cache.lines);
    forall k
      ensures KeyOk(s.v.store, s.v.cache, k)
    {
    }
  }

  lemma {:induction false} NothingHeld(lines: seq<Line>)
    requires forall l | 0 <= l < |lines| :: lines[l].ref == 0
    ensures Outstanding(lines) == 0
  {
    if lines != [] { NothingHeld(lines[..|lines| - 1]); }
  }

  predicate RunMoves(s: System, es: seq<Event>)
    decreases |es|
  {
    es != [] && (EventMoves(s, es[0]) || RunMoves(Do(s, es[0]), es[1..]))
  }

  lemma {:induction false} RunOk(s: System, es: seq<Event>)
    requires SysInv(s) && LegalRun(s, es)
    ensures SysInv(Run(s, es)) && Carries(s.v, Run(s, es).v, RunMoves(s, es))
    decreases |es|
  {
    hide SysInv, Legal, Do, EventMoves;
    if es == [] {
      CarriesNothing(s.v);
    } else {
      EventOk(s, es[0]);
      var s' := Do(s, es[0]);
      RunOk(s', es[1..]);
      hide Carries;
      CarriesOn(s.v, s'.v, Run(s', es[1..]).v, EventMoves(s, es[0]), RunMoves(s', es[1..]));
    }
  }

  // ----- who is served -----------------------------------------------------------------------------------

  /** All items of a batch, one after the other, and what they do to the sender's quota. */
  function DoAll(v: Vinyl, items: seq<Item>): Vinyl
    decreases |items|
  {
    if items == [] then v else DoAll(DoItem(v, items[0]).v, items[1..])
  }

  function Charge(v: Vinyl, items: seq<Item>): int
    decreases |items|
  {
    if items == [] then 0
    else var r := DoItem(v, items[0]); QuotaChange(items[0], r.err) + Charge(r.v, items[1..])
  }

  lemma {:induction false} BatchIsAll(s: System, c: nat, items: seq<Item>)
    requires c in s.clients
    ensures Batch(s, c, items) == s.(v := DoAll(s.v, items),
      clients := s.clients[c := s.clients[c].(rem := s.clients[c].rem + Charge(s.v, items))])
    decreases |items|
  {
    hide DoItem, QuotaChange;
    if items == [] {
      assert s.clients[c := s.clients[c]] == s.clients;
    } else {
      BatchIsAll(StepItem(s, c, items[0]), c, items[1..]);
    }
  }

  /** A request of a joined client is served in full, at the client's own charge, unless it
      is an acquire of more pairs than the client has quota left; then, and from a client
      that has not joined, it changes nothing. */
  lemma RequestServed(s: System, c: nat, items: seq<Item>)
    ensures var s' := Do(s, Request(c, items));
      if c in s.clients && (items == [] || !items[0].AcquireItem? || |items| <= s.clients[c].rem) then
        s' == s.(v := DoAll(s.v, items),
          clients := s.clients[c := s.clients[c].(rem := s.clients[c].rem + Charge(s.v, items))])
      else s' == s
  {
    hide DoItem, Charge, DoAll, Batch;
    if c in s.clients { BatchIsAll(s, c, items); }
  }

  /** A client is admitted exactly if it is new and the quota it asks for is to be had and
      within the limit; it may leave exactly when nothing it acquired is outstanding. */
  lemma MembersServed(s: System, c: nat, max: nat)
    ensures var s' := Do(s, Join(c, max));
      if c !in s.clients && max <= s.free && max <= QUOTA_MAX
      then c in s'.clients && s'.clients[c] == Client(max, max) && s'.free + max == s.free
           && s'.clients - {c} == s.clients && s'.v == s.v
      else s' == s
    ensures var s' := Do(s, Leave(c));
      if c in s.clients && s.clients[c].rem == s.clients[c].max
      then c !in s'.clients && s'.clients == s.clients - {c} && s'.free == s.free + s.clients[c].max && s'.v == s.v
      else s' == s
  {
  }
}
