/** What every run of a vinyl tile guarantees. */
module VinylMain {
  import opened Basics
  import opened VinylTypes
  import opened VinylStep
  import opened VinylInv
  import opened VinylOps
  import opened VinylQuota
  import opened VinylPin
  import opened VinylLog
  import opened VinylRun

  // ----- safety and quotas ---------------------------------------------------------------------

  /** Meta, cache and log agree after any events, quota never underflows, and there is
      always a line to evict. */
  lemma RunSafe(s: System, es: seq<Event>)
    requires Boot(s) && LegalRun(s, es)
    ensures var t := Run(s, es);
      && Inv(t.v) && (forall c | c in t.clients :: t.clients[c].rem >= 0)
      && t.free + Remaining(t.clients) + Taken(t.v) == |t.v.cache.lines| - 1
      && Evictable(t.v.cache)
  {
    hide Inv, LogOk, Boot, LegalRun, Run, Carries, Remaining, Taken, Evictable;
    BootOk(s);
    RunOk(s, es);
    AlwaysEvictable(Run(s, es));
  }

  /** What agreeing means: a cached key and its line point at each other; a key being
      created is cached and held for modify; and a line not held for modify has the key and
      info of its record, the committed value, and the tightest size class. */
  lemma CacheAgrees(v: Vinyl, k: Key)
    requires Inv(v)
    ensures k in v.cache.at ==>
      var l := v.cache.at[k]; var b := BufAt(v.cache, l);
      && l < |v.cache.lines| && v.cache.lines[l].key == Some(k) && k in v.store.recs && b.key == k
      && (v.cache.lines[l].ref >= 0 ==>
            && Stored(v.store, k) && b.info == v.store.recs[k].info && b.ctl == Pair(true, b.info.valSz)
            && b.info.valSz <= ValMax(v.sizes) && b.szc == Szc(v.sizes, b.info.valSz)
            && Front(b.val, b.info.valSz) == Val(v.store, k))
    ensures k in v.store.recs && !Stored(v.store, k) ==> k in v.cache.at && LineAt(v.cache, v.cache.at[k]).ref == -1
    ensures forall l | 0 <= l < |v.cache.lines| && v.cache.lines[l].key == Some(k) ::
        k in v.cache.at && v.cache.at[k] == l
  {
    hide StoreOk, Val, Szc, LinesOk, AddrOk, OrderOk;
    assert KeyOk(v.store, v.cache, k);
    if k in v.cache.at { CachedKnown(v, k); }
  }

  // ----- conservation ---------------------------------------------------------------------------

  /** Blocks appended are live pairs gained plus garbage made, the same in bytes, and
      pair_cnt counts the meta elements in use. */
  lemma RunLedger(s: System, es: seq<Event>)
    requires Boot(s) && LegalRun(s, es)
    ensures var a := s.v.store; var z := Run(s, es).v.store;
      && |z.log| - |a.log| == Live(z.recs, false) - Live(a.recs, false) + z.garbageCnt - a.garbageCnt
      && Size(z.log) - Size(a.log) == Live(z.recs, true) - Live(a.recs, true) + z.garbageSz - a.garbageSz
      && z.pairCnt == |z.recs|
  {
    hide CacheOk, LogOk, Boot, LegalRun, Run, QuotaOk, Live, NoMoves, Size;
    BootOk(s);
    RunOk(s, es);
  }

  // ----- persistence -----------------------------------------------------------------------------

  /** The store recovery would come up with. */
  function Recovered(s: Store, pairMax: nat): Store {
    s.(recs := Recover(s.log, 0, map[], pairMax).recs)
  }

  /** From a log without move blocks, recovery after a run reads the whole log exactly
      when the run moved no pair; then it finds every committed pair and no other, and
      replaying the log names for each the block its record names. */
  lemma RunRecovers(s: System, es: seq<Event>)
    requires Boot(s) && LegalRun(s, es) && NoMoves(s.v.store.log)
    ensures var z := Run(s, es).v;
      && (Recover(z.store.log, 0, map[], z.pairMax).blocks == |z.store.log| <==> !RunMoves(s, es))
      && (!RunMoves(s, es) ==>
            && Replay(z.store.log) == StoredRecs(z.store)
            && Committed(Recovered(z.store, z.pairMax)) == Committed(z.store))
  {
    hide Inv, Boot, LegalRun, Run, QuotaOk, NoMoves, Recover, Replay, RunMoves, Committed, Ledger, Size;
    BootOk(s);
    RunOk(s, es);
    var z := Run(s, es).v;
    RecoveryExact(z.store, z.pairMax);
    if NoMoves(z.store.log) { SameCommitted(z.store); }
  }

  lemma SameCommitted(s: Store)
    ensures Committed(s.(recs := StoredRecs(s))) == Committed(s)
  {
    hide BlockAt;
  }

  /** The family of runs that breaks recovery: any successful MOVE to a new name. */
  lemma MoveStopsRecovery(v: Vinyl, src: Key, dst: Key, addr: nat)
    requires StoreInv(v) && Evictable(v.cache) && MoveAddr(v, src, dst, addr)
    requires src != dst && src in v.store.recs && !Held(v, src) && !Held(v, dst)
    ensures var r := Move(v, src, dst, addr);
      r.err == Success && Recover(r.v.store.log, 0, map[], r.v.pairMax).blocks < |r.v.store.log|
  {
    hide Inv, LogOk, Move, Recover, Ledger, NoMoves, Committed, Evictable, MoveAddr;
    MoveOk(v, src, dst, addr);
    MoveCarries(v, src, dst, addr);
    var r := Move(v, src, dst, addr);
    RecoveryExact(r.v.store, r.v.pairMax);
  }

  // ----- readers ------------------------------------------------------------------------------------

  /** Line l is held for read before every item of the batch. */
  ghost predicate BatchReading(s: System, c: nat, items: seq<Item>, l: nat)
    requires c in s.clients
    decreases |items|
  {
    Reading(s.v, l) && (items != [] ==> BatchReading(StepItem(s, c, items[0]), c, items[1..], l))
  }

  ghost predicate EventReading(s: System, e: Event, l: nat) {
    Reading(s.v, l) &&
    (e.Request? && e.client in s.clients && !OverQuota(s, e.client, e.items) ==> BatchReading(s, e.client, e.items, l))
  }

  ghost predicate RunReading(s: System, es: seq<Event>, l: nat)
    decreases |es|
  {
    Reading(s.v, l) && (es != [] ==> EventReading(s, es[0], l) && RunReading(Do(s, es[0]), es[1..], l))
  }

  lemma KeptOn(v: Vinyl, v': Vinyl, v'': Vinyl, l: nat)
    requires Kept(v, v', l) && Kept(v', v'', l)
    ensures Kept(v, v'', l)
  {
    hide Val;
  }

  lemma KeptSelf(v: Vinyl, l: nat)
    requires Inv(v) && Reading(v, l)
    ensures Kept(v, v, l)
  {
    hide Inv, Val;
    ReadingKnown(v, l);
  }

  lemma ItemKeeps(v: Vinyl, it: Item, l: nat)
    requires StoreInv(v) && Evictable(v.cache) && LegalItem(v, it) && Reading(v, l)
    ensures Kept(v, DoItem(v, it).v, l)
  {
    hide Inv, Acquire, ReleaseLine, Erase, Move, Fetch, Flush, Resolve, Evictable, Kept, Reading;
    hide AcquireAddr, ReleaseAddr, MoveAddr, FetchAddr, ClientOk;
    match it
    case AcquireItem(f, key, valMax, addr) => AcquireKeeps(v, f, key, valMax, addr, l);
    case ReleaseItem(f, to, e, addr) =>
      if Resolve(v, to).Some? {
        ResolvedMeans(v, to);
        ReleaseKeeps(v, f, Resolve(v, to).value, e, addr, l);
      } else {
        KeptSelf(v, l);
      }
    case EraseItem(key) => EraseKeeps(v, key, l);
    case MoveItem(src, dst, addr) => MoveKeeps(v, src, dst, addr, l);
    case FetchItem(key, addr) => FetchKeeps(v, key, addr, l);
    case FlushItem(key) => FlushKeeps(v, key, l);
  }

  lemma {:induction false} BatchKeeps(s: System, c: nat, items: seq<Item>, l: nat)
    requires SysInv(s) && c in s.clients && LegalBatch(s, c, items) && Uniform(items) && BatchReading(s, c, items, l)
    requires items != [] && items[0].AcquireItem? ==> |items| <= s.clients[c].rem
    ensures Kept(s.v, Batch(s, c, items).v, l)
    decreases |items|
  {
    hide Inv, LogOk, LegalItem, DoItem, Kept, Reading, Evictable, Carries, QuotaOk;
    if items == [] {
      KeptSelf(s.v, l);
    } else {
      AlwaysEvictable(s);
      ItemKeeps(s.v, items[0], l);
      StepOk(s, c, items[0]);
      var s' := StepItem(s, c, items[0]);
      assert s'.clients[c].rem >= s.clients[c].rem - 1;
      assert Uniform(items[1..]);
      BatchKeeps(s', c, items[1..], l);
      KeptOn(s.v, s'.v, Batch(s', c, items[1..]).v, l);
    }
  }

  lemma EventKeeps(s: System, e: Event, l: nat)
    requires SysInv(s) && Legal(s, e) && EventReading(s, e, l)
    ensures Kept(s.v, Do(s, e).v, l)
  {
    hide Inv, LogOk, Kept, Reading, QuotaOk, LegalBatch, Batch, BatchReading, ClientWrite;
    KeptSelf(s.v, l);
    match e
    case Request(c, items) =>
      if c in s.clients && !OverQuota(s, c, items) { BatchKeeps(s, c, items, l); }
    case Write(m, info, val) => WriteKeeps(s.v, m, info, val, l);
    case Join(_, _) =>
    case Leave(_) =>
  }

  /** As long as a line is held for read, no events of any clients change its key, its
      object, the object's header or value, its version, or the committed pair. */
  lemma {:induction false} RunKeeps(s: System, es: seq<Event>, l: nat)
    requires SysInv(s) && LegalRun(s, es) && RunReading(s, es, l)
    ensures Kept(s.v, Run(s, es).v, l)
    decreases |es|
  {
    hide StoreInv, QuotaOk, Kept, Reading, Do, Legal, EventReading, Carries;
    if es == [] {
      assert Inv(s.v) by { InvOf(s); }
      KeptSelf(s.v, l);
    } else {
      EventKeeps(s, es[0], l);
      EventOk(s, es[0]);
      RunKeeps(Do(s, es[0]), es[1..], l);
      KeptOn(s.v, Do(s, es[0]).v, Run(Do(s, es[0]), es[1..]).v, l);
    }
  }

  lemma InvOf(s: System)
    requires SysInv(s)
    ensures Inv(s.v)
  {
  }

  // ----- what an acquire hands out -------------------------------------------------------------------

  /** A reader sees exactly the committed pair. */
  lemma ReaderSees(v: Vinyl, l: nat)
    requires Inv(v) && Reading(v, l)
    ensures var k := KeyAt(v.cache, l); var b := BufAt(v.cache, l);
      && k in Committed(v.store) && b.key == k
      && Content(b.info, Front(b.val, b.info.valSz)) == Committed(v.store)[k]
  {
    hide CacheOk, StoreOk, Val, Szc, Committed;
    ReadingKnown(v, l);
    CachedKnown(v, KeyAt(v.cache, l));
    InCommitted(v.store, KeyAt(v.cache, l));
  }

  /** The header and size-class checks a release makes never fire: a held buffer carries
      its key and the control word of its record, a reader's also its info, and the class
      a released value needs is never larger than the one it sits in. */
  lemma ReleaseChecks(v: Vinyl, l: nat, sz: nat)
    requires Inv(v) && l < |v.cache.lines| && v.cache.lines[l].ref != 0
    ensures var k := KeyAt(v.cache, l); var b := BufAt(v.cache, l);
      && b.key == k && k in v.store.recs
      && (Stored(v.store, k) ==> b.ctl == Pair(true, v.store.recs[k].info.valSz))
      && (v.cache.lines[l].ref > 0 ==>
            Stored(v.store, k) && b.info == v.store.recs[k].info && b.szc == Szc(v.sizes, b.info.valSz))
      && (sz <= |b.val| ==> sz <= ValMax(v.sizes) && Szc(v.sizes, sz) <= b.szc)
  {
    hide CacheOk, StoreOk, Val;
    HeldKnown(v, l);
    CachedKnown(v, KeyAt(v.cache, l));
  }

  /** The reply to an acquire in terms of holds alone: whether the pair happens to be
      cached plays no part. */
  function AcquireReply(v: Vinyl, f: Flags, key: Key, valMax: nat): Err
    requires v.sizes != []
  {
    if f.modifying && valMax > ValMax(v.sizes) then ErrInval
    else if key !in v.store.recs then (if f.modifying && f.create then Success else ErrKey)
    else if !Stored(v.store, key) then ErrAgain
    else if Held(v, key) && (f.modifying || LineAt(v.cache, v.cache.at[key]).ref < 0) then ErrAgain
    else if f.modifying && f.excl then ErrInval
    else Success
  }

  /** How often a key is held. */
  function RefOf(v: Vinyl, key: Key): int {
    if key in v.cache.at then LineAt(v.cache, v.cache.at[key]).ref else 0
  }

  /** A granted acquire holds the key: one more reader of the committed pair, or a buffer
      of the size asked for that starts out with the committed pair unless told to
      ignore it. */
  lemma AcquireGrants(v: Vinyl, f: Flags, key: Key, valMax: nat, addr: nat)
    requires Inv(v) && Evictable(v.cache)
    ensures var r := Acquire(v, f, key, valMax, addr); var c := r.v.cache;
      && r.err == AcquireReply(v, f, key, valMax)
      && (r.err == Success ==>
            && key in c.at
            && var b := BufAt(c, c.at[key]);
            && (if f.modifying then LineAt(c, c.at[key]).ref == -1 && valMax <= |b.val|
                else LineAt(c, c.at[key]).ref == 1 + RefOf(v, key))
            && (Stored(v.store, key) && !f.ignore ==>
                  b.info == v.store.recs[key].info && Front(b.val, b.info.valSz) == Val(v.store, key)))
  {
    hide CacheOk, StoreOk, Load, Resize, ReadBuf, ClassOf, Val, Szc, Region;
    if key in v.cache.at { CachedKnown(v, key); }
    if Acquire(v, f, key, valMax, addr).err == Success {
      if key !in v.store.recs {
        CreateGrants(v, f, key, valMax, addr);
      } else if key in v.cache.at {
        if f.modifying { ModifyBufOk(v.sizes, v.store, key, BufAt(v.cache, v.cache.at[key]), f.ignore, valMax, addr); }
      } else {
        LoadGrants(v, f, key, valMax, addr);
      }
    }
  }

  lemma LoadedBuf(sizes: seq<nat>, s: Store, c: Cache, key: Key, b: Buf, ref: int, p: Prio)
    requires ValidSizes(sizes) && CacheOk(sizes, s, c) && Evictable(c) && key !in c.at
    ensures var c' := Load(c, key, b, ref, p);
        key in c'.at && BufAt(c', c'.at[key]) == b && LineAt(c', c'.at[key]).ref == ref
  {
    hide CacheOk;
    VictimStored(sizes, s, c);
  }

  lemma CreateGrants(v: Vinyl, f: Flags, key: Key, valMax: nat, addr: nat)
    requires Inv(v) && Evictable(v.cache) && key !in v.store.recs && valMax <= ValMax(v.sizes)
    ensures var c := AcquireCreate(v, f, key, valMax, addr).cache;
      key in c.at && LineAt(c, c.at[key]).ref == -1 && valMax <= |BufAt(c, c.at[key]).val|
  {
    hide StoreOk, Load, Szc;
    assert KeyOk(v.store, v.cache, key);
    hide CacheOk;
    ClassFits(v.sizes, valMax);
    var szc := ClassOf(v.sizes, valMax);
    var b := Buf(addr, szc, Creating, key, NO_INFO, Region(v.sizes, szc, []));
    LoadedBuf(v.sizes, v.store, v.cache, key, b, -1, f.prio);
  }

  lemma LoadGrants(v: Vinyl, f: Flags, key: Key, valMax: nat, addr: nat)
    requires Inv(v) && Evictable(v.cache) && Stored(v.store, key) && key !in v.cache.at
    requires f.modifying ==> valMax <= ValMax(v.sizes)
    ensures var c := AcquireUncached(v, f, key, valMax, addr).cache;
      && key in c.at && LineAt(c, c.at[key]).ref == (if f.modifying then -1 else 1)
      && var b := BufAt(c, c.at[key]);
      && (f.modifying ==> valMax <= |b.val|)
      && (!f.ignore || !f.modifying ==>
            b.info == v.store.recs[key].info && Front(b.val, b.info.valSz) == Val(v.store, key))
  {
    hide CacheOk, StoreOk, Load, Szc, BlockAt, Val;
    InvKnown(v, key);
    var r := v.store.recs[key];
    if f.modifying && f.ignore {
      IgnoreBufOk(v, key, valMax, addr);
      var b0 := ReadBuf(v, key, valMax, addr);
      var b := b0.(info := r.info.(valSz := 0), val := Region(v.sizes, b0.szc, []));
      hide ReadBuf, Region;
      LoadedBuf(v.sizes, v.store, v.cache, key, b, -1, f.prio);
    } else {
      var room := if f.modifying then Max(r.info.valSz, valMax) else r.info.valSz;
      ReadBufOk(v, key, room, addr);
      ClassFits(v.sizes, room);
      var b := ReadBuf(v, key, room, addr);
      assert room <= |b.val|;
      hide ReadBuf, Region, BufOk;
      LoadedBuf(v.sizes, v.store, v.cache, key, b, if f.modifying then -1 else 1, f.prio);
    }
  }

  /** A modify that is cancelled untouched leaves no trace but a possibly moved object: the
      same key, version, header and value, nobody holding, the persistent side unchanged. */
  lemma CancelUndoes(v: Vinyl, f: Flags, key: Key, valMax: nat, addr: nat, g: Flags, e: Encoding, addr': nat)
    requires Inv(v) && key in v.cache.at && LineAt(v.cache, v.cache.at[key]).ref == 0 && valMax <= ValMax(v.sizes)
    requires f.modifying && !f.ignore && !f.excl && !g.modifying && !g.ignore
    ensures var l := v.cache.at[key];
      var r := Acquire(v, f, key, valMax, addr);
      var v' := ReleaseLine(r.v, g, l, e, addr');
      var b := BufAt(v.cache, l); var b' := BufAt(v'.cache, l);
      && r.err == Success && v'.store == v.store && v'.cache.at == v.cache.at
      && LineAt(v'.cache, l).key == LineAt(v.cache, l).key && LineAt(v'.cache, l).ver == LineAt(v.cache, l).ver
      && LineAt(v'.cache, l).ref == 0
      && b'.key == b.key && b'.ctl == b.ctl && b'.info == b.info && b'.szc == b.szc
      && Front(b'.val, b'.info.valSz) == Front(b.val, b.info.valSz)
  {
    hide CacheOk, StoreOk, Val, Szc, Bump, Unbump, Resize, Refit, ClassOf, Region;
    CachedKnown(v, key);
    var l := v.cache.at[key];
    var x, b := LineAt(v.cache, l), BufAt(v.cache, l);
    VersionBack(x.ver);
    ModifyBufOk(v.sizes, v.store, key, b, false, valMax, addr);
    var b1 := Resize(v.sizes, b, ClassOf(v.sizes, Max(b.info.valSz, valMax)), b.info.valSz, addr);
    ResizeKeeps(v.sizes, b, ClassOf(v.sizes, Max(b.info.valSz, valMax)), b.info.valSz, addr);
    RefitOk(v.sizes, b1, addr');
    var v1 := Acquire(v, f, key, valMax, addr).v;
    assert BufAt(v1.cache, l) == b1;
    ReleaseModifyKept(v1, g, l, e, addr');
  }

  lemma VersionBack(ver: nat)
    requires ver < 0x1_0000_0000
    ensures Unbump(Bump(ver)) == ver
  {
  }

  lemma ResizeKeeps(sizes: seq<nat>, b: Buf, szc: nat, n: nat, addr: nat)
    ensures var b' := Resize(sizes, b, szc, n, addr); b'.key == b.key && b'.ctl == b.ctl && b'.info == b.info
  {
  }

  lemma ReleaseModifyKept(v: Vinyl, g: Flags, l: nat, e: Encoding, addr: nat)
    requires l < |v.cache.lines| && LineAt(v.cache, l).ref == -1 && BufAt(v.cache, l).ctl != Creating
    requires !g.modifying && !g.ignore
    ensures var v' := ReleaseLine(v, g, l, e, addr);
      && v'.store == v.store && v'.cache.at == v.cache.at && LineAt(v'.cache, l).key == LineAt(v.cache, l).key
      && LineAt(v'.cache, l).ver == Unbump(LineAt(v.cache, l).ver) && LineAt(v'.cache, l).ref == 0
      && BufAt(v'.cache, l) == Refit(v.sizes, BufAt(v.cache, l), addr)
  {
  }

  // ----- a concrete run ----------------------------------------------------------------------------------

  /** A tile recovered from a log with the one pair 1, over three lines. */
  function OnePair(): System {
    var none := Line(None, None, 0, 0);
    var rec := Rec(Pair(true, 0), NO_INFO, 0);
    System(Vinyl([56], 4, Store(map[1 := rec], [PairBlk(1, NO_INFO, Pair(true, 0), [])], 1, 0, 0),
                 Cache([none, none, none], map[], [0, 1, 2])), map[], 2)
  }

  lemma OnePairLog()
    ensures var st := OnePair().v.store; StoreOk([56], st) && LogOk(st, 4) && NoMoves(st.log)
  {
    var st := OnePair().v.store;
    var r := Rec(Pair(true, 0), NO_INFO, 0);
    var log := st.log;
    assert log[..0] == [] && Size(log[..0]) == 0 && Replay(log[..0]) == map[];
    assert BlockAt(log, 0) == Some(log[0]);
    assert Replay(log) == map[1 := r] == StoredRecs(st);
    var m: map<Key, Rec> := map[];
    assert Recover(log, 1, m[1 := r], 4) == Recovery(map[1 := r], 1);
    assert Recover(log, 0, m, 4) == Recovery(map[1 := r], 1);
    assert |st.recs| == 1;
  }

  lemma OnePairBoots()
    ensures Boot(OnePair()) && NoMoves(OnePair().v.store.log)
  {
    OnePairLog();
    hide StoreOk, LogOk, NoMoves;
    var c := OnePair().v.cache;
    assert c.order[0] == 0 && c.order[1] == 1 && c.order[2] == 2;
    assert OrderOk(c);
    assert |OnePair().v.store.recs| == 1;
  }

  /** Moving that pair to the free key 2 succeeds and leaves a log that recovery does not
      get through: after a restart neither key 1 nor key 2 is where the client left it. */
  lemma MoveThenRecover()
    ensures var r := Move(OnePair().v, 1, 2, 9);
      r.err == Success && Recover(r.v.store.log, 0, map[], 4).blocks < |r.v.store.log|
  {
    hide StoreInv, Boot, QuotaOk, Move, Recover, NoMoves;
    OnePairBoots();
    BootOk(OnePair());
    AlwaysEvictable(OnePair());
    assert OnePair().v.pairMax == 4 && FreshAddr(OnePair().v.cache, 9);
    MoveKeepsLimit(OnePair().v, 1, 2, 9);
    MoveStopsRecovery(OnePair().v, 1, 2, 9);
  }

  lemma MoveKeepsLimit(v: Vinyl, src: Key, dst: Key, addr: nat)
    ensures Move(v, src, dst, addr).v.pairMax == v.pairMax
  {
    hide Load, Put, DropLru, Moved, Forgotten, ReadBuf;
  }
}
