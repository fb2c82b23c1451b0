/** The tile as it runs: meta slots, line rows and data objects updated in place,
    request by request, each proved to do what the step function of its item says. */
module VinylTile {
  import opened Basics
  import opened VinylTypes
  import opened VinylStep
  import opened VinylInv
  import opened VinylOps
  import opened VinylTable
  import opened VinylRep
  import VinylLog
  import VinylRun

  class Tile {
    const ele: array<Ele>
    const row: array<Row>
    const sizes: seq<nat>
    const pairMax: nat
    const hash: Key -> nat
    var objs: map<nat, Obj>
    var order: seq<nat>
    var log: seq<Block>
    var pairCnt: int
    var garbageCnt: nat
    var garbageSz: nat

    /** The abstract store, and the slot of every key. */
    ghost var m: Vinyl
    ghost var idx: map<Key, nat>

    /** The arrays represent m. */
    ghost predicate Shape()
      reads this, ele, row
    {
      && Rep(ele[..], row[..], objs, idx, hash, m.store.recs, m.cache)
      && m.sizes == sizes && m.pairMax == pairMax < ele.Length
      && m.cache.order == order && m.store == Store(m.store.recs, log, pairCnt, garbageCnt, garbageSz)
    }

    ghost predicate Valid()
      reads this, ele, row
    {
      Shape() && Inv(m) && |m.store.recs| <= pairMax
    }

    // ----- reading the arrays ---------------------------------------------------------------

    lemma TableFacts()
      requires Shape()
      ensures TableOk(ele[..], idx, hash) && idx.Keys == m.store.recs.Keys && row.Length == |m.cache.lines|
    {
    }

    lemma SlotFacts(key: Key)
      requires Shape() && key in idx
      ensures key in m.store.recs && idx[key] < ele.Length
      ensures ele[idx[key]] == EleOf(hash, key, m.store.recs[key], m.cache.at)
    {
      TableKnown(ele[..], idx, hash, m.store.recs, m.cache.at, key);
    }

    /** The objects are the live ones. */
    lemma ObjFacts(addr: nat)
      requires Shape()
      ensures addr !in objs <==> FreshAddr(m.cache, addr)
    {
      hide RepTable, RepRows;
      if addr !in objs { AddrFresh(objs, m.cache, addr); }
    }

    /** What the arrays hold for a cached key, and that the pointers the source checks
        before using them do lead back: object to line and line to slot. */
    lemma CachedFacts(key: Key)
      requires Valid() && key in m.cache.at
      ensures var l := m.cache.at[key];
        && l < row.Length == |m.cache.lines| && key in idx && idx[key] < ele.Length && row[l].ele == Some(idx[key])
        && key in m.store.recs && ele[idx[key]] == EleOf(hash, key, m.store.recs[key], m.cache.at)
        && ele[idx[key]].line == Some(l)
        && row[l].ver == m.cache.lines[l].ver && row[l].ref == m.cache.lines[l].ref
        && m.cache.lines[l].key == Some(key) && m.cache.lines[l].buf.Some?
        && var b := m.cache.lines[l].buf.value;
           && b == BufAt(m.cache, l) && row[l].obj == Some(b.addr) && b.addr in objs
           && objs[b.addr] == ObjOf(b, l) && BufOf(objs[b.addr], b.addr) == b
      ensures AddrOk(m.cache)
      ensures var l := m.cache.at[key]; BufOk(m.sizes, m.store, key, BufAt(m.cache, l), m.cache.lines[l].ref)
    {
      hide StoreOk, RepTable, BufOk;
      CachedKnown(m, key);
      RowCtl(row[..], idx, m.cache.lines, m.cache.at[key]);
      TableKnown(ele[..], idx, hash, m.store.recs, m.cache.at, key);
    }

    // ----- starting ---------------------------------------------------------------------------

    /** An empty store: no pair, no log, every line free. */
    constructor (sizes: seq<nat>, pairMax: nat, eleMax: nat, lineCnt: nat, hash: Key -> nat)
      requires ValidSizes(sizes) && pairMax < eleMax && 3 <= lineCnt <= 0xFFFF_FFFF
      ensures Valid() && fresh(ele) && fresh(row) && m == Fresh(sizes, pairMax, lineCnt)
    {
      this.sizes, this.pairMax, this.hash := sizes, pairMax, hash;
      ele := new Ele[eleMax](i => Empty);
      row := new Row[lineCnt](i => Row(None, None, 0, 0));
      objs, order, log, pairCnt, garbageCnt, garbageSz := map[], seq(lineCnt, (i: nat) => i), [], 0, 0, 0;
      m, idx := Fresh(sizes, pairMax, lineCnt), map[];
      new;
      FreshOk(sizes, pairMax, lineCnt);
      FreshRep(ele[..], row[..], hash, sizes, pairMax);
      hide Inv, Rep;
    }

    // ----- eviction -----------------------------------------------------------------------

    /** Walks the eviction sequence from the least recently used line. */
    method FindVictim() returns (l: nat)
      requires Shape() && ValidSizes(sizes) && CacheOk(sizes, m.store, m.cache) && Evictable(m.cache)
      ensures l == Victim(m.cache.lines, m.cache.order) && l < row.Length && row[l].ref == 0
    {
      hide RepTable, RepRows, RepObjs, PtrOk, AddrOk, LinesOk, KeyOk, NoRepeats, Victim;
      VictimStored(sizes, m.store, m.cache);
      TableFacts();
      OrderInRange(m.cache);
      var i := 0;
      assert order[0..] == order;
      while i < |order| && row[order[i]].ref != 0
        invariant 0 <= i <= |order|
        invariant Victim(m.cache.lines, order[i..]) == Victim(m.cache.lines, order)
      {
        RowCtl(row[..], idx, m.cache.lines, order[i]);
        VictimAt(m.cache.lines, order, i);
        i := i + 1;
      }
      VictimNone(m.cache.lines, order, i);
      l := order[i];
      RowCtl(row[..], idx, m.cache.lines, l);
      VictimAt(m.cache.lines, order, i);
    }

    /** Frees a line's object and lets go of its slot. */
    method Clear(l: nat)
      requires Shape() && PtrOk(m.cache) && AddrOk(m.cache) && l < row.Length
      modifies this`objs, this`m, ele, row
      ensures Shape() && m == old(m).(cache := Drop(old(m.cache), l))
      ensures forall j | 0 <= j < ele.Length :: ele[j].Ele? <==> old(ele[j].Ele?)
    {
      hide RepTable, RepRows, RepObjs, PtrOk, AddrOk;
      ghost var t, rows := ele[..], row[..];
      TableFacts();
      DropRep(t, rows, objs, idx, hash, m.store.recs, m.cache, l);
      if row[l].ele.Some? {
        ele[row[l].ele.value] := ele[row[l].ele.value].(line := None);
      }
      assert ele[..] == Unlink(t, rows[l].ele);
      objs := Freed(objs, row[l].obj);
      row[l] := Row(None, None, Bump(row[l].ver), 0);
      assert row[..] == rows[l := Row(None, None, Bump(rows[l].ver), 0)];
      m := m.(cache := Drop(m.cache, l));
    }

    method EvictLru() returns (l: nat)
      requires Shape() && ValidSizes(sizes) && CacheOk(sizes, m.store, m.cache) && Evictable(m.cache)
      modifies this`objs, this`m, ele, row
      ensures l == Victim(old(m.cache.lines), old(m.cache.order)) && l < row.Length
      ensures Shape() && m == old(m).(cache := Drop(old(m.cache), l))
      ensures forall j | 0 <= j < ele.Length :: ele[j].Ele? <==> old(ele[j].Ele?)
    {
      l := FindVictim();
      Clear(l);
    }

    /** Connects an empty line with the slot of an uncached key and with an object. */
    method Fill(l: nat, i: nat, b: Buf, ref: int)
      requires Shape() && AddrOk(m.cache) && l < row.Length && l < |m.cache.lines| && m.cache.lines[l].buf.None?
      requires b.key in idx && i == idx[b.key] && b.key !in m.cache.at && b.addr !in objs
      modifies this`objs, this`m, ele, row
      ensures Shape() && m == old(m).(cache := Install(old(m.cache), l, b.key, b, ref))
    {
      hide RepTable, RepRows, RepObjs, AddrOk, Bump;
      ghost var t, rows := ele[..], row[..];
      SlotFacts(b.key);
      TableFacts();
      InstallRep(t, rows, objs, idx, hash, m.store.recs, m.cache, l, b.key, b, ref);
      ele[i] := ele[i].(line := Some(l));
      assert ele[..] == t[i := t[i].(line := Some(l))];
      row[l] := Row(Some(b.addr), Some(i), Bump(row[l].ver), ref);
      assert row[..] == rows[l := Row(Some(b.addr), Some(i), Bump(rows[l].ver), ref)];
      objs := objs[b.addr := ObjOf(b, l)];
      m := m.(cache := Install(m.cache, l, b.key, b, ref));
    }

    /** Moves a line in the eviction sequence. */
    method SetPrio(l: nat, p: Prio)
      requires Shape()
      modifies this`order, this`m
      ensures Shape() && m == old(m).(cache := Prioritize(old(m.cache), l, p))
    {
      hide RepTable, RepRows, RepObjs;
      match p {
        case Mru => order := Without(order, l) + [l];
        case Lru => order := [l] + Without(order, l);
        case Unc =>
      }
      m := m.(cache := Prioritize(m.cache, l, p));
    }

    /** Evicts the least recently used line and caches a pair there. The new object may
        take the address of the one the eviction frees. */
    method LoadLine(i: nat, b: Buf, ref: int, p: Prio) returns (l: nat)
      requires Shape() && ValidSizes(sizes) && CacheOk(sizes, m.store, m.cache) && Evictable(m.cache)
      requires b.key in idx && i == idx[b.key] && b.key !in m.cache.at && FreshAfterEvict(m.cache, b.addr)
      modifies this`objs, this`order, this`m, ele, row
      ensures Shape() && m == old(m).(cache := Load(old(m.cache), b.key, b, ref, p))
      ensures l == Victim(old(m.cache.lines), old(m.cache.order))
    {
      hide CacheOk, RepTable, RepRows, RepObjs, AddrOk, Bump, RowOf, Victim, Evictable, FreshAddr;
      VictimDropped(sizes, m.store, m.cache);
      l := EvictLru();
      ObjFacts(b.addr);
      Fill(l, i, b, ref);
      SetPrio(l, p);
    }

    /** Rewrites the buffer and control word of a cached key's line. */
    method SetLineAt(l: nat, b: Buf, ver: nat, ref: int)
      requires Shape() && AddrOk(m.cache) && l < row.Length && l < |m.cache.lines| && m.cache.lines[l].buf.Some?
      requires b.addr !in objs || b.addr == m.cache.lines[l].buf.value.addr
      modifies this`objs, this`m, row
      ensures Shape() && m == old(m).(cache := SetLine(old(m.cache), l, b, ver, ref))
    {
      ghost var rows := row[..];
      SetRep(ele[..], rows, objs, idx, hash, m.store.recs, m.cache, l,
          m.cache.lines[l].(buf := Some(b), ver := ver, ref := ref));
      hide RepTable, RepRows, RepObjs, AddrOk;
      objs := Freed(objs, row[l].obj)[b.addr := ObjOf(b, l)];
      row[l] := Row(Some(b.addr), row[l].ele, ver, ref);
      assert row[..] == rows[l := Row(Some(b.addr), rows[l].ele, ver, ref)];
      m := m.(cache := SetLine(m.cache, l, b, ver, ref));
    }

    method SetCtl(l: nat, ver: nat, ref: int)
      requires Shape() && l < row.Length
      modifies this`m, row
      ensures Shape() && m == old(m).(cache := Put(old(m.cache), l, LineAt(old(m.cache), l).(ver := ver, ref := ref)))
    {
      ghost var rows := row[..];
      TableFacts();
      CtlRep(ele[..], rows, objs, idx, hash, m.store.recs, m.cache, l, ver, ref);
      hide RepTable, RepRows, RepObjs;
      row[l] := row[l].(ver := ver, ref := ref);
      assert row[..] == rows[l := rows[l].(ver := ver, ref := ref)];
      m := m.(cache := Put(m.cache, l, LineAt(m.cache, l).(ver := ver, ref := ref)));
    }

    // ----- ACQUIRE ------------------------------------------------------------------------------

    method AcquireCachedAt(f: Flags, key: Key, l: nat, valMax: nat, addr: nat) returns (err: Err)
      requires Valid() && key in m.cache.at && l == m.cache.at[key]
      requires Resizes(m, f, l, valMax) ==> addr !in objs
      modifies this`objs, this`order, this`m, row
      ensures Shape() && Reply(m, err) == AcquireCached(old(m), f, l, valMax, addr)
    {
      hide Inv, Rep, AddrOk, BufOk, Resize, ClassOf, Prioritize, Bump;
      CachedFacts(key);
      if !f.modifying {
        if row[l].ref < 0 { return ErrAgain; }
        SetCtl(l, row[l].ver, row[l].ref + 1);
        return Success;
      }
      if row[l].ref != 0 { return ErrAgain; }
      if f.excl { return ErrInval; }
      var a := row[l].obj.value;
      var b := BufOf(objs[a], a);
      if f.ignore { b := b.(info := b.info.(valSz := 0)); }
      var szc := ClassOf(sizes, Max(b.info.valSz, valMax));
      var b' := Resize(sizes, b, szc, b.info.valSz, addr);
      ResizeAddr(sizes, b, szc, b.info.valSz, addr);
      SetLineAt(l, b', Bump(row[l].ver), -1);
      SetPrio(l, f.prio);
      return Success;
    }

    /** A stored pair read from the log into a new object. */
    method ReadPair(i: nat, key: Key, room: nat, addr: nat) returns (b: Buf)
      requires Shape() && key in idx && i == idx[key]
      ensures key in m.store.recs && b == ReadBuf(m, key, room, addr) && b.key == key && b.addr == addr
    {
      hide RepRows, RepObjs, ClassOf, Region, BlockAt, TableOk;
      SlotFacts(key);
      var r := ele[i].rec;
      var szc := ClassOf(sizes, room);
      b := Buf(addr, szc, Pair(true, r.info.valSz), key, r.info, Region(sizes, szc, ReadVal(log, r.pos)));
    }

    method AcquireUncachedAt(f: Flags, key: Key, i: nat, valMax: nat, addr: nat)
      requires Valid() && Evictable(m.cache) && key in idx && i == idx[key] && key !in m.cache.at
      requires FreshAfterEvict(m.cache, addr)
      modifies this`objs, this`order, this`m, ele, row
      ensures Shape() && key in old(m.store.recs) && m == AcquireUncached(old(m), f, key, valMax, addr)
    {
      hide CacheOk, StoreOk, Rep, ReadBuf, Region, Load, Evictable;
      SlotFacts(key);
      var r := ele[i].rec;
      var room := if !f.modifying then r.info.valSz else if !f.ignore then Max(r.info.valSz, valMax) else valMax;
      var b := ReadPair(i, key, room, addr);
      if f.modifying && f.ignore {
        b := b.(info := r.info.(valSz := 0), val := Region(sizes, b.szc, []));
      }
      var l := LoadLine(i, b, if f.modifying then -1 else 1, f.prio);
    }

    method AcquireCreateAt(f: Flags, key: Key, i: nat, valMax: nat, addr: nat)
      requires Valid() && Evictable(m.cache) && key !in m.store.recs && Insertable(ele[..], hash(key), i)
      requires FreshAfterEvict(m.cache, addr) && |m.store.recs| < pairMax
      modifies this, ele, row
      ensures Shape() && m == AcquireCreate(old(m), f, key, valMax, addr)
    {
      hide CacheOk, StoreOk, Rep, Region, ClassOf, Evictable, Insertable, Victim, Drop, Install, Prioritize, AddrOk;
      hide FreshAddr;
      var szc := ClassOf(sizes, valMax);
      var b := Buf(addr, szc, Creating, key, NO_INFO, Region(sizes, szc, []));
      VictimOut(m);
      ghost var t0 := ele[..];
      var l := EvictLru();
      InsertableSame(t0, ele[..], hash(key), i);
      ObjFacts(addr);
      NewSlot(key, i, Rec(Creating, NO_INFO, 0));
      pairCnt := pairCnt + 1;
      m := m.(store := m.store.(pairCnt := pairCnt));
      Fill(l, i, b, -1);
      SetPrio(l, f.prio);
    }

    /** Puts a new key into the meta. */
    method NewSlot(key: Key, i: nat, r: Rec)
      requires Shape() && key !in m.store.recs && key !in m.cache.at && Insertable(ele[..], hash(key), i)
      requires |m.store.recs| + 1 < ele.Length
      modifies this`m, this`idx, ele
      ensures Shape() && m == old(m).(store := old(m.store).(recs := old(m.store.recs)[key := r]))
      ensures idx == old(idx)[key := i]
    {
      ghost var t := ele[..];
      TableInsert(t, idx, hash, m.store.recs, m.cache.at, key, r, i);
      RowsGrow(row[..], idx, m.cache.lines, key, i);
      hide RepTable, RepRows, RepObjs;
      ele[i] := Ele(hash(key), key, r, None);
      assert ele[..] == t[i := EleOf(hash, key, r, m.cache.at)];
      idx := idx[key := i];
      m := m.(store := m.store.(recs := m.store.recs[key := r]));
    }

    /** One item of an ACQUIRE request. */
    method AcquireItem(f: Flags, key: Key, valMax: nat, addr: nat) returns (err: Err)
      requires Valid() && Evictable(m.cache) && AcquireAddr(m, f, key, valMax, addr)
      requires Creates(m, f, key, valMax) ==> |m.store.recs| < pairMax
      modifies this, ele, row
      ensures Valid() && Reply(m, err) == Acquire(old(m), f, key, valMax, addr)
    {
      hide Inv, Rep, AcquireCached, AcquireUncached, AcquireCreate, Evictable, FreshAddr, Committed, Insertable;
      ObjFacts(addr);
      AcquireOk(m, f, key, valMax, addr);
      AcquireCount(m, f, key, valMax, addr);
      assert sizes != [] by { SizesKnown(m); }
      if f.modifying && valMax > ValMax(sizes) { return ErrInval; }
      TableFacts();
      var found, i := Query(ele, key, hash(key), idx, hash);
      if !found {
        if !(f.modifying && f.create) { return ErrKey; }
        AcquireCreateAt(f, key, i, valMax, addr);
        return Success;
      }
      SlotFacts(key);
      if ele[i].rec.ctl.Creating? { return ErrAgain; }
      if ele[i].line.Some? {
        err := AcquireCachedAt(f, key, ele[i].line.value, valMax, addr);
        return;
      }
      if f.modifying && f.excl { return ErrInval; }
      AcquireUncachedAt(f, key, i, valMax, addr);
      return Success;
    }

    // ----- the meta and the log ---------------------------------------------------------------------

    /** Removes an uncached key from the meta; other keys' slots may move. */
    method RemoveSlot(i: nat, ghost key: Key)
      requires Shape() && PtrOk(m.cache) && key in idx && i == idx[key] && key !in m.cache.at
      modifies this`m, this`idx, ele, row
      ensures Shape() && m == old(m).(store := old(m.store).(recs := old(m.store.recs) - {key}))
    {
      hide RepTable, RepRows, RepObjs, PtrOk, Linked, TableOk, Survive, SameRows;
      ghost var t, rows := ele[..], row[..];
      TableFacts();
      SlotFacts(key);
      RepLinked(t, rows, idx, hash, m.store.recs, m.cache);
      UnlinkedSlot(t, rows, i);
      ghost var idx' := Remove(ele, row, i, idx, hash);
      Removed(t, idx, ele[..], idx', hash, rows, row[..], m.store.recs, m.cache, key);
      idx := idx';
      m := m.(store := m.store.(recs := m.store.recs - {key}));
    }

    /** Removes an uncached key from the meta and from the pair count. */
    method ForgetSlot(i: nat, ghost key: Key)
      requires Shape() && PtrOk(m.cache) && key in idx && i == idx[key] && key !in m.cache.at
      modifies this`m, this`idx, this`pairCnt, ele, row
      ensures Shape() && m == old(m).(store := Forgotten(old(m.store), key))
    {
      hide RepTable, RepRows, RepObjs, PtrOk;
      RemoveSlot(i, key);
      pairCnt := pairCnt - 1;
      m := m.(store := m.store.(pairCnt := pairCnt));
    }

    method UpdateRec(i: nat, ghost key: Key, r: Rec)
      requires Shape() && key in idx && i == idx[key]
      modifies this`m, ele
      ensures Shape() && m == old(m).(store := old(m.store).(recs := old(m.store.recs)[key := r]))
    {
      hide RepTable, RepRows, RepObjs;
      ghost var t := ele[..];
      SlotFacts(key);
      TableRec(t, idx, hash, m.store.recs, m.cache.at, key, r);
      ele[i] := ele[i].(rec := r);
      assert ele[..] == t[i := EleOf(hash, key, r, m.cache.at)];
      m := m.(store := m.store.(recs := m.store.recs[key := r]));
    }

    method Append(b: Block, blocks: nat, bytes: nat)
      requires Shape()
      modifies this`m, this`log, this`garbageCnt, this`garbageSz
      ensures Shape()
      ensures m == old(m).(store := old(m.store).(log := old(log) + [b], garbageCnt := old(garbageCnt) + blocks,
                                                  garbageSz := old(garbageSz) + bytes))
    {
      hide RepTable, RepRows, RepObjs;
      log, garbageCnt, garbageSz := log + [b], garbageCnt + blocks, garbageSz + bytes;
      m := m.(store := m.store.(log := log, garbageCnt := garbageCnt, garbageSz := garbageSz));
    }

    // ----- RELEASE -------------------------------------------------------------------------------------

    method ResolveKey(key: Key) returns (at: Option<nat>)
      requires Valid()
      ensures at == ByKey(m, key)
    {
      hide Inv, Rep, BufOk;
      TableFacts();
      var found, i := Query(ele, key, hash(key), idx, hash);
      if !found { return None; }
      SlotFacts(key);
      if ele[i].line.None? { return None; }
      CachedFacts(key);
      var l := ele[i].line.value;
      if row[l].ref == 0 { return None; }
      return Some(l);
    }

    method ResolveAddr(addr: nat) returns (at: Option<nat>)
      requires Valid()
      ensures at == ByAddr(m.cache, addr, 0)
    {
      hide StoreOk, LinesOk, PtrOk, OrderOk, RepTable, KeyOk;
      if addr !in objs {
        ObjFacts(addr);
        ByAddrNone(m.cache, addr, 0);
        return None;
      }
      var l := objs[addr].line;
      RowCtl(row[..], idx, m.cache.lines, l);
      ByAddrOnly(m.cache, addr, 0, l);
      if row[l].obj != Some(addr) || row[l].ref == 0 { return None; }
      return Some(l);
    }

    method CommitAt(f: Flags, l: nat, ghost key: Key, e: Encoding, addr: nat)
      requires Valid() && key in m.cache.at && l == m.cache.at[key] && l < row.Length
      requires var b := BufAt(m.cache, l); ClassOf(sizes, b.info.valSz) != b.szc ==> addr !in objs
      modifies this, ele, row
      ensures Shape() && m == Commit(old(m), f, l, e, addr)
    {
      hide Inv, Rep, AddrOk, BufOk, Refit, Prioritize, Bump, Size;
      CachedFacts(key);
      SlotFacts(key);
      var i, a := row[l].ele.value, row[l].obj.value;
      var b := BufOf(objs[a], a);
      var b' := Refit(sizes, b, addr).(ctl := Pair(true, b.info.valSz));
      RefitAddr(sizes, b, addr);
      var old_ := ele[i].rec;
      var pos := Size(log);
      var ctl := Pair(e.raw, e.esz);
      Append(PairBlk(ele[i].key, b.info, ctl, Front(b.val, b.info.valSz)),
             if old_.ctl.Pair? then 1 else 0, if old_.ctl.Pair? then PairSz(old_.ctl.esz) else 0);
      SetLineAt(l, b', Bump(row[l].ver), 0);
      SetPrio(l, f.prio);
      UpdateRec(i, key, Rec(ctl, b.info, pos));
    }

    /** Releases one acquire of a held line. */
    method ReleaseLineAt(f: Flags, l: nat, e: Encoding, addr: nat)
      requires Valid() && l < row.Length && l < |m.cache.lines| && m.cache.lines[l].ref != 0
      requires ClientOk(m, f, l, e) && ReleaseAddr(m, f, l, addr)
      modifies this, ele, row
      ensures Valid() && m == ReleaseLine(old(m), f, l, e, addr)
    {
      hide Inv, Rep, AddrOk, BufOk, Prioritize, ClientOk, FreshAddr, ReleaseMap, Committed, ReleaseLine, RowOf;
      ObjFacts(addr);
      ReleaseOk(m, f, l, e, addr);
      ReleaseCount(m, f, l, e, addr);
      HeldKnown(m, l);
      ghost var key := KeyAt(m.cache, l);
      CachedFacts(key);
      if row[l].ref > 0 {
        ReleaseReadIs(m, f, l, e, addr);
        SetPrio(l, f.prio);
        SetCtl(l, row[l].ver, row[l].ref - 1);
      } else {
        ReleaseModifyAt(f, l, key, e, addr);
      }
    }

    /** Ends an acquire for modify. */
    method ReleaseModifyAt(f: Flags, l: nat, ghost key: Key, e: Encoding, addr: nat)
      requires Valid() && key in m.cache.at && l == m.cache.at[key] && l < row.Length && l < |m.cache.lines|
      requires m.cache.lines[l].ref < 0 && (Refits(m, f, l) ==> addr !in objs)
      modifies this, ele, row
      ensures Shape() && m == ReleaseLine(old(m), f, l, e, addr)
    {
      hide Inv, Rep, AddrOk, BufOk, Refit, Prioritize, Bump, Unbump, Commit, DropLru, Erased, Forgotten, SetLine;
      hide ReleaseLine;
      CachedFacts(key);
      ReleasedCtl(m, l);
      ReleaseModifyIs(m, f, l, e, addr);
      var a := row[l].obj.value;
      var b := BufOf(objs[a], a);
      if f.modifying && !f.erase {
        CommitAt(f, l, key, e, addr);
      } else if b.ctl != Creating && !f.modifying && !f.ignore {
        var b' := Refit(sizes, b, addr);
        RefitAddr(sizes, b, addr);
        SetLineAt(l, b', Unbump(row[l].ver), 0);
        SetPrio(l, f.prio);
      } else {
        DiscardAt(l, key, f.modifying || b.ctl == Creating, f.modifying && b.ctl != Creating);
      }
    }

    /** Empties the line of a key and makes it the next to be used. */
    method ClearLru(l: nat, ghost key: Key)
      requires Valid() && key in m.cache.at && l == m.cache.at[key] && l < row.Length
      modifies this`objs, this`m, this`order, ele, row
      ensures Shape() && m == old(m).(cache := DropLru(old(m.cache), l)) && key !in m.cache.at && PtrOk(m.cache)
    {
      hide Inv, Rep, AddrOk, PtrOk, Drop, Prioritize;
      InvPtrAddr(m);
      DropUncaches(m.cache, key);
      Clear(l);
      SetPrio(l, Lru);
    }

    /** Empties the line of a key, logs its death if asked, and drops the key if asked. */
    method DiscardAt(l: nat, ghost key: Key, remove: bool, dead: bool)
      requires Valid() && key in m.cache.at && l == m.cache.at[key] && l < row.Length
      requires dead ==> remove && Stored(m.store, key)
      modifies this, ele, row
      ensures Shape() && m == old(m).(cache := DropLru(old(m.cache), l),
        store := if dead then Erased(old(m.store), key)
                 else if remove then Forgotten(old(m.store), key) else old(m.store))
    {
      hide Inv, Rep, BufOk, PtrOk, AddrOk, DropLru, Erased, Forgotten;
      CachedFacts(key);
      SlotFacts(key);
      var i := row[l].ele.value;
      var x := ele[i];
      ClearLru(l, key);
      if dead {
        ErasedAs(m.store, key);
        Append(DeadBlk(x.key, x.rec.info, x.rec.ctl), 2, PairSz(x.rec.ctl.esz) + 128);
      }
      if remove { ForgetSlot(i, key); }
    }

    // ----- ERASE, FLUSH, FETCH ----------------------------------------------------------------------------

    method EraseItem(key: Key) returns (err: Err)
      requires Valid()
      modifies this, ele, row
      ensures Valid() && Reply(m, err) == Erase(old(m), key)
    {
      hide Inv, Rep, BufOk, Committed, DropLru, Erased, AddrOk, Insertable;
      EraseOk(m, key);
      EraseCount(m, key);
      TableFacts();
      var found, i := Query(ele, key, hash(key), idx, hash);
      if !found { return ErrKey; }
      SlotFacts(key);
      if ele[i].line.Some? {
        CachedFacts(key);
        var l := ele[i].line.value;
        if row[l].ref != 0 { return ErrAgain; }
        UnheldStored(m, key);
        DiscardAt(l, key, true, true);
      } else {
        UncachedStored(m, key);
        EraseUncached(i, key);
      }
      return Success;
    }

    method EraseUncached(i: nat, ghost key: Key)
      requires Valid() && key in idx && i == idx[key] && key !in m.cache.at && Stored(m.store, key)
      modifies this, ele, row
      ensures Shape() && m == old(m).(store := Erased(old(m.store), key))
    {
      hide Inv, Rep, BufOk, Erased, Forgotten, AddrOk, PtrOk;
      InvPtrAddr(m);
      SlotFacts(key);
      ErasedAs(m.store, key);
      Append(DeadBlk(ele[i].key, ele[i].rec.info, ele[i].rec.ctl), 2, PairSz(ele[i].rec.ctl.esz) + 128);
      ForgetSlot(i, key);
    }

    method FlushItem(key: Key)
      requires Valid()
      modifies this, ele, row
      ensures Valid() && m == Flush(old(m), key)
    {
      FlushOk(m, key);
      hide Inv, Rep, BufOk, Prioritize;
      TableFacts();
      var found, i := Query(ele, key, hash(key), idx, hash);
      if !found { return; }
      SlotFacts(key);
      if ele[i].line.None? { return; }
      CachedFacts(key);
      var l := ele[i].line.value;
      if row[l].ref != 0 {
        SetPrio(l, Lru);
      } else {
        DiscardAt(l, key, false, false);
      }
    }

    method FetchItem(key: Key, addr: nat)
      requires Valid() && Evictable(m.cache) && FetchAddr(m, key, addr)
      modifies this, ele, row
      ensures Valid() && m == Fetch(old(m), key, addr)
    {
      hide Inv, Rep, Insertable, Prioritize, ReadBuf, Load, FreshAfterEvict, Evictable;
      FetchOk(m, key, addr);
      TableFacts();
      var found, i := Query(ele, key, hash(key), idx, hash);
      if !found { return; }
      SlotFacts(key);
      if ele[i].rec.ctl.Creating? { return; }
      if ele[i].line.Some? {
        SetPrio(ele[i].line.value, Mru);
        return;
      }
      FetchMiss(i, key, addr);
    }

    method FetchMiss(i: nat, key: Key, addr: nat)
      requires Valid() && Evictable(m.cache) && key in idx && i == idx[key] && key !in m.cache.at
      requires FreshAfterEvict(m.cache, addr)
      modifies this`objs, this`order, this`m, ele, row
      ensures Shape() && key in old(m.store.recs)
      ensures m == old(m).(cache := Load(old(m.cache), key,
                                         ReadBuf(old(m), key, old(m.store.recs)[key].info.valSz, addr), 0, Mru))
    {
      hide CacheOk, StoreOk, Rep, ReadBuf, Load, Evictable;
      SlotFacts(key);
      var b := ReadPair(i, key, ele[i].rec.info.valSz, addr);
      var l := LoadLine(i, b, 0, Mru);
    }

    // ----- MOVE -----------------------------------------------------------------------------------------------

    method MoveLoadAt(src: Key, i: nat, addr: nat) returns (l: nat)
      requires Valid() && Evictable(m.cache) && src in idx && i == idx[src] && src in m.store.recs && !Held(m, src)
      requires src !in m.cache.at ==> FreshAddr(m.cache, addr)
      modifies this`objs, this`order, this`m, ele, row
      ensures Shape() && m == MoveLoad(old(m), src, addr)
      ensures src in old(m.cache.at) ==> l == old(m.cache.at)[src]
      ensures src !in old(m.cache.at) ==> l == Victim(old(m.cache.lines), old(m.cache.order))
    {
      hide CacheOk, StoreOk, Rep, BufOk, ReadBuf, Load, Evictable, Victim, Bump;
      SlotFacts(src);
      if ele[i].line.Some? {
        CachedFacts(src);
        l := ele[i].line.value;
        SetCtl(l, Bump(row[l].ver), 0);
      } else {
        var b := ReadPair(i, src, ele[i].rec.info.valSz, addr);
        FreshStays(m.cache, addr);
        l := LoadLine(i, b, 0, Lru);
      }
    }

    method CountGarbage(sz: nat)
      requires Valid()
      modifies this`m, this`garbageCnt, this`garbageSz
      ensures Valid() && m == Counted(old(m), sz)
    {
      hide Inv, Rep;
      CountersInv(m, Counted(m, sz));
      garbageCnt, garbageSz := garbageCnt + 1, garbageSz + sz;
      m := Counted(m, sz);
    }

    method MoveClearAt(dst: Key, i: nat, line: Option<nat>)
      requires Valid() && dst in idx && i == idx[dst] && dst in m.store.recs && Stored(m.store, dst)
      requires line == if dst in m.cache.at then Some(m.cache.at[dst]) else None
      modifies this, ele, row
      ensures Shape() && m == MoveClear(old(m), dst)
    {
      hide Inv, Rep, PtrOk, AddrOk, DropLru, Forgotten, MoveClear;
      SlotFacts(dst);
      InvPtrAddr(m);
      MoveClearAs(m, dst);
      assert line.Some? ==> line.value < row.Length by {
        if line.Some? { CachedFacts(dst); }
      }
      CountGarbage(PairSz(ele[i].rec.ctl.esz));
      if line.Some? { ClearLru(line.value, dst); }
      ForgetSlot(i, dst);
    }

    /** Renames the cached object of src and lets its line and slot go of each other. The
        source leaves the old slot number in the line until it overwrites it. */
    method DetachLine(l: nat, i: nat, ghost src: Key, dst: Key)
      requires Valid() && src in m.cache.at && l == m.cache.at[src] && src in idx && i == idx[src] && l < row.Length
      modifies this`objs, this`m, ele, row
      ensures Shape() && m == old(m).(cache := Detached(old(m.cache), l, src, dst))
      ensures PtrOk(m.cache) && src !in m.cache.at
    {
      hide Inv, Rep, BufOk, AddrOk, PtrOk, Detached;
      ghost var t, rows := ele[..], row[..];
      CachedFacts(src);
      InvPtrAddr(m);
      DetachRep(t, rows, objs, idx, hash, m.store.recs, m.cache, src, dst);
      DetachPtr(m.cache, src, dst);
      var a := row[l].obj.value;
      objs := objs[a := objs[a].(key := dst)];
      ele[i] := ele[i].(line := None);
      assert ele[..] == t[i := t[i].(line := None)];
      row[l] := row[l].(ele := None);
      assert row[..] == rows[l := rows[l].(ele := None)];
      m := m.(cache := Detached(m.cache, l, src, dst));
    }

    /** Puts dst into the meta and gives it the detached line. */
    method InsertMoved(l: nat, dst: Key, r: Rec)
      requires Shape() && dst !in m.store.recs && dst !in m.cache.at && l < row.Length && l < |m.cache.lines|
      requires |m.store.recs| + 1 < ele.Length
      modifies this`m, this`idx, ele, row
      ensures Shape() && m == MovedIn(old(m), l, dst, r)
    {
      hide Rep, Insertable, Attached, TableOk;
      TableFacts();
      var found, j := Query(ele, dst, hash(dst), idx, hash);
      NewSlot(dst, j, r);
      Attach(l, j, dst);
    }

    method Attach(l: nat, i: nat, ghost dst: Key)
      requires Shape() && dst in idx && i == idx[dst] && dst !in m.cache.at && l < row.Length && l < |m.cache.lines|
      modifies this`m, ele, row
      ensures Shape() && m == old(m).(cache := Attached(old(m.cache), l, dst))
    {
      hide RepTable, RepRows, RepObjs;
      ghost var t, rows := ele[..], row[..];
      SlotFacts(dst);
      TableFacts();
      AttachRep(t, rows, objs, idx, hash, m.store.recs, m.cache, l, dst);
      ele[i] := ele[i].(line := Some(l));
      assert ele[..] == t[i := t[i].(line := Some(l))];
      row[l] := row[l].(ele := Some(i));
      assert row[..] == rows[l := rows[l].(ele := Some(i))];
      m := m.(cache := Attached(m.cache, l, dst));
    }

    method AppendMove(dst: Key, b: Buf, esz: nat)
      requires Shape()
      modifies this`m, this`log, this`garbageCnt, this`garbageSz
      ensures Shape() && m == MoveLogged(old(m), dst, b, esz)
    {
      hide Rep, Front;
      Append(MoveBlk(dst, b.info, b.ctl, dst), 2, PairSz(esz) + 128);
      Append(PairBlk(dst, b.info, b.ctl, Front(b.val, b.info.valSz)), 0, 0);
    }

    method MoveOut(l: nat, i: nat, ghost src: Key, dst: Key)
      requires Valid() && src in m.cache.at && l == m.cache.at[src] && src in idx && i == idx[src] && l < row.Length
      modifies this`objs, this`m, this`idx, ele, row
      ensures Shape() && m == MovedOut(old(m), l, src, dst)
    {
      hide Inv, Rep, Detached, PtrOk;
      DetachLine(l, i, src, dst);
      RemoveSlot(i, src);
    }

    /** What MOVE reads before it changes anything. */
    method MoveParts(l: nat, i: nat, ghost src: Key) returns (b: Buf, esz: nat, pos: nat)
      requires Valid() && src in m.cache.at && l == m.cache.at[src] && src in idx && i == idx[src] && !Held(m, src)
      ensures l < row.Length == |m.cache.lines| && Stored(m.store, src) && |m.store.recs| < ele.Length
      ensures b == BufAt(m.cache, l) && esz == m.store.recs[src].ctl.esz && pos == Size(m.store.log) + 128
    {
      hide Inv, Rep, BufOk, AddrOk, PtrOk, Size, Held;
      CachedFacts(src);
      UnheldStored(m, src);
      var a := row[l].obj.value;
      b, esz, pos := BufOf(objs[a], a), ele[i].rec.ctl.esz, Size(log) + 128;
    }

    method MoveOverAt(l: nat, i: nat, src: Key, dst: Key)
      requires Valid() && src in m.cache.at && l == m.cache.at[src] && src in idx && i == idx[src] && l < row.Length
      requires src != dst && dst !in m.store.recs && dst !in m.cache.at && !Held(m, src)
      modifies this, ele, row
      ensures Shape() && m == MoveOver(old(m), src, dst)
    {
      hide Tile.Shape, Tile.Valid, Size, MovedOut, MovedIn, MoveLogged, MoveOver, BufAt, Held;
      var b, esz, pos := MoveParts(l, i, src);
      MoveOverAs(m, l, src, dst);
      MovedOutKnown(m, l, src, dst);
      MoveOut(l, i, src, dst);
      InsertMoved(l, dst, Rec(b.ctl, b.info, pos));
      AppendMove(dst, b, esz);
    }

    /** One item of a MOVE request. */
    method MoveItem(src: Key, dst: Key, addr: nat) returns (err: Err)
      requires Valid() && Evictable(m.cache) && MoveAddr(m, src, dst, addr)
      modifies this, ele, row
      ensures Valid() && Reply(m, err) == Move(old(m), src, dst, addr)
    {
      hide Inv, Rep, BufOk, Evictable, FreshAddr, MoveLoad, MoveClear, MoveOver, Victim, Committed, Insertable;
      MoveOk(m, src, dst, addr);
      MoveCount(m, src, dst, addr);
      ghost var v := m;
      if src == dst { return Success; }
      TableFacts();
      var foundDst, iDst := Query(ele, dst, hash(dst), idx, hash);
      var lineDst: Option<nat> := None;
      if foundDst {
        SlotFacts(dst);
        lineDst := ele[iDst].line;
        if lineDst.Some? {
          CachedFacts(dst);
          if row[lineDst.value].ref != 0 { return ErrAgain; }
        }
      }
      var foundSrc, iSrc := Query(ele, src, hash(src), idx, hash);
      if !foundSrc { return ErrKey; }
      SlotFacts(src);
      if ele[iSrc].line.Some? {
        CachedFacts(src);
        if row[ele[iSrc].line.value].ref != 0 { return ErrAgain; }
      }
      var srcCached := ele[iSrc].line.Some?;
      DstUnheld(v, dst, foundDst);
      MoveLoadOk(v, src, dst, addr);
      MoveLoadAlias(v, src, dst, addr);
      var l := MoveLoadAt(src, iSrc, addr);
      if !srcCached && lineDst == Some(l) { lineDst := None; }
      MoveRest(l, iSrc, src, dst, foundDst, iDst, lineDst);
      return Success;
    }

    /** The part of MOVE behind the point of no return. */
    method MoveRest(l: nat, i: nat, src: Key, dst: Key, foundDst: bool, iDst: nat, lineDst: Option<nat>)
      requires Valid() && src != dst && src in m.cache.at && l == m.cache.at[src] && src in idx && i == idx[src]
      requires !Held(m, src) && !Held(m, dst)
      requires foundDst <==> dst in m.store.recs
      requires foundDst ==> dst in idx && iDst == idx[dst]
      requires foundDst ==> lineDst == if dst in m.cache.at then Some(m.cache.at[dst]) else None
      modifies this, ele, row
      ensures Shape() && m == MoveOver(MoveClear(old(m), dst), src, dst)
    {
      hide Inv, Rep, BufOk, MoveClear, MoveOver, Committed, RowOf, LineAt, Held;
      CachedFacts(src);
      MoveClearOk(m, src, dst);
      ghost var v := m;
      var iSrc := i;
      if foundDst {
        iSrc := MoveClearFind(src, dst, iDst, lineDst);
      } else {
        ClearsNothing(m, dst);
      }
      StillUnheld(v, m, src);
      ClearedCount(v, dst);
      MoveOverAt(l, iSrc, src, dst);
    }

    /** Removes dst and looks src up again, as its slot may have moved. */
    method MoveClearFind(src: Key, dst: Key, iDst: nat, lineDst: Option<nat>) returns (iSrc: nat)
      requires Valid() && src != dst && src in m.store.recs && dst in m.store.recs && dst in idx && iDst == idx[dst]
      requires !Held(m, dst)
      requires lineDst == if dst in m.cache.at then Some(m.cache.at[dst]) else None
      modifies this, ele, row
      ensures Shape() && m == MoveClear(old(m), dst) && src in idx && iSrc == idx[src]
    {
      hide Inv, Rep, MoveClear, Insertable, TableOk;
      UnheldStored(m, dst);
      ClearedKeeps(m, src, dst);
      MoveClearAt(dst, iDst, lineDst);
      TableFacts();
      var found;
      found, iSrc := Query(ele, src, hash(src), idx, hash);
    }
  }

  function Fresh(sizes: seq<nat>, pairMax: nat, lineCnt: nat): Vinyl {
    Vinyl(sizes, pairMax, Store(map[], [], 0, 0, 0),
        Cache(seq(lineCnt, i => FREE_LINE), map[], seq(lineCnt, (i: nat) => i)))
  }

  lemma FreshOk(sizes: seq<nat>, pairMax: nat, lineCnt: nat)
    requires ValidSizes(sizes) && 3 <= lineCnt <= 0xFFFF_FFFF
    ensures Inv(Fresh(sizes, pairMax, lineCnt))
    ensures VinylRun.Boot(VinylRun.System(Fresh(sizes, pairMax, lineCnt), map[], lineCnt - 1))
  {
    var s := VinylRun.System(Fresh(sizes, pairMax, lineCnt), map[], lineCnt - 1);
    FreshOrder(lineCnt);
    assert VinylLog.StoredRecs(s.v.store) == map[];
    VinylRun.BootOk(s);
  }

  lemma FreshOrder(n: nat)
    ensures var order := seq(n, (i: nat) => i); (forall l: nat :: l in order <==> l < n) && NoRepeats(order)
  {
    var order := seq(n, (i: nat) => i);
    forall l: nat | l < n
      ensures l in order
    {
      assert order[l] == l;
    }
  }

  lemma FreshRep(t: seq<Ele>, rows: seq<Row>, hash: Key -> nat, sizes: seq<nat>, pairMax: nat)
    requires t != [] && forall i | 0 <= i < |t| :: t[i].Empty?
    requires forall l | 0 <= l < |rows| :: rows[l] == Row(None, None, 0, 0)
    ensures var v := Fresh(sizes, pairMax, |rows|); Rep(t, rows, map[], map[], hash, v.store.recs, v.cache)
  {
    assert t[0].Empty?;
  }

  lemma VictimOut(v: Vinyl)
    requires Inv(v) && Evictable(v.cache)
    ensures var l := Victim(v.cache.lines, v.cache.order); var c' := Drop(v.cache, l);
      && l < |v.cache.lines| == |c'.lines| && AddrOk(c') && c'.lines[l].buf.None?
      && forall k | k in c'.at :: k in v.store.recs
  {
    forall k | k in v.cache.at
      ensures k in v.store.recs
    {
      assert KeyOk(v.store, v.cache, k);
    }
    hide CacheOk, Victim, Evictable;
    VictimDropped(v.sizes, v.store, v.cache);
  }

  lemma AcquireCount(v: Vinyl, f: Flags, key: Key, valMax: nat, addr: nat)
    requires Inv(v) && |v.store.recs| <= v.pairMax && (Creates(v, f, key, valMax) ==> |v.store.recs| < v.pairMax)
    ensures |Acquire(v, f, key, valMax, addr).v.store.recs| <= v.pairMax
  {
    hide Inv, Load, Resize, ReadBuf, Region, ClassOf;
    assert v.store.recs[key := Rec(Creating, NO_INFO, 0)].Keys == v.store.recs.Keys + {key};
  }

  lemma SizesKnown(v: Vinyl)
    requires Inv(v)
    ensures v.sizes != []
  {
  }

  lemma ResizeAddr(sizes: seq<nat>, b: Buf, szc: nat, n: nat, addr: nat)
    ensures Resize(sizes, b, szc, n, addr).addr == if szc == b.szc then b.addr else addr
  {
  }

  lemma InsertableSame(t: seq<Ele>, t': seq<Ele>, memo: nat, i: nat)
    requires Insertable(t, memo, i) && |t'| == |t| && forall j | 0 <= j < |t| :: t[j].Ele? <==> t'[j].Ele?
    ensures Insertable(t', memo, i)
  {
  }

  lemma VictimDropped(sizes: seq<nat>, s: Store, c: Cache)
    requires ValidSizes(sizes) && CacheOk(sizes, s, c) && Evictable(c)
    ensures var l := Victim(c.lines, c.order); var c' := Drop(c, l);
      l < |c.lines| && AddrOk(c') && c'.lines[l].buf.None?
  {
    hide LinesOk, Victim, KeyOk;
    VictimStored(sizes, s, c);
    DropShape(c, Victim(c.lines, c.order));
  }

  lemma OrderInRange(c: Cache)
    requires OrderOk(c)
    ensures forall k | 0 <= k < |c.order| :: c.order[k] < |c.lines|
  {
    assert forall k | 0 <= k < |c.order| :: c.order[k] in c.order;
  }

  lemma RowCtl(rows: seq<Row>, idx: map<Key, nat>, lines: seq<Line>, l: nat)
    requires RepRows(rows, idx, lines) && l < |lines|
    ensures |rows| == |lines| && RowOf(rows[l], idx, lines[l])
  {
  }

  lemma VictimAt(lines: seq<Line>, order: seq<nat>, i: nat)
    requires i < |order| && order[i] < |lines|
    ensures Victim(lines, order[i..]) == if lines[order[i]].ref == 0 then order[i] else Victim(lines, order[i + 1..])
  {
    assert order[i..][1..] == order[i + 1..];
  }

  lemma VictimNone(lines: seq<Line>, order: seq<nat>, i: nat)
    requires i <= |order| && Victim(lines, order[i..]) < |lines|
    ensures i < |order|
  {
  }

  lemma ByAddrNone(c: Cache, addr: nat, j: nat)
    requires FreshAddr(c, addr)
    ensures ByAddr(c, addr, j) == None
    decreases |c.lines| - j
  {
  }

  lemma {:induction false} ByAddrOnly(c: Cache, addr: nat, j: nat, l: nat)
    requires AddrOk(c) && j <= l < |c.lines| && c.lines[l].buf.Some? && c.lines[l].buf.value.addr == addr
    ensures ByAddr(c, addr, j) == if c.lines[l].ref != 0 then Some(l) else None
    decreases |c.lines| - j
  {
    if j < l {
      ByAddrOnly(c, addr, j + 1, l);
    } else {
      ByAddrPast(c, addr, l + 1, l);
    }
  }

  lemma {:induction false} ByAddrPast(c: Cache, addr: nat, j: nat, l: nat)
    requires AddrOk(c) && l < |c.lines| && l < j && c.lines[l].buf.Some? && c.lines[l].buf.value.addr == addr
    ensures ByAddr(c, addr, j) == None
    decreases |c.lines| - j
  {
    if j < |c.lines| { ByAddrPast(c, addr, j + 1, l); }
  }

  lemma RefitAddr(sizes: seq<nat>, b: Buf, addr: nat)
    ensures Refit(sizes, b, addr).addr == if ClassOf(sizes, b.info.valSz) == b.szc then b.addr else addr
  {
  }

  lemma ReleaseCount(v: Vinyl, f: Flags, l: nat, e: Encoding, addr: nat)
    requires Inv(v) && l < |v.cache.lines| && v.cache.lines[l].ref != 0
    ensures |ReleaseLine(v, f, l, e, addr).store.recs| <= |v.store.recs|
  {
    hide CacheOk, StoreOk, BufOk, Refit, DropLru, Prioritize, Written, Erased, Forgotten;
    HeldKnown(v, l);
    var k := KeyAt(v.cache, l);
    CachedKnown(v, k);
    var b := BufAt(v.cache, l);
    VinylRun.StoreShrinks(v.store, k, b.info, Pair(e.raw, e.esz), Front(b.val, b.info.valSz));
    ReleasedCtl(v, l);
    if !Stored(v.store, k) { VinylRun.ForgottenErased(v.store, k); }
  }

  lemma ErasedAs(s: Store, k: Key)
    requires Stored(s, k)
    ensures var r := s.recs[k];
      Erased(s, k) == Forgotten(s.(log := s.log + [DeadBlk(k, r.info, r.ctl)], garbageCnt := s.garbageCnt + 2,
                                   garbageSz := s.garbageSz + (PairSz(r.ctl.esz) + 128)), k)
  {
  }

  lemma ReleaseReadIs(v: Vinyl, f: Flags, l: nat, e: Encoding, addr: nat)
    requires LineAt(v.cache, l).ref > 0
    ensures var c := Prioritize(v.cache, l, f.prio); var x := LineAt(v.cache, l);
      ReleaseLine(v, f, l, e, addr) == v.(cache := Put(c, l, LineAt(c, l).(ver := x.ver, ref := x.ref - 1)))
  {
  }

  lemma ReleaseModifyIs(v: Vinyl, f: Flags, l: nat, e: Encoding, addr: nat)
    requires LineAt(v.cache, l).ref < 0
    ensures var b := BufAt(v.cache, l); var k := KeyAt(v.cache, l); var ver := Unbump(LineAt(v.cache, l).ver);
      ReleaseLine(v, f, l, e, addr) ==
        if f.modifying && !f.erase then Commit(v, f, l, e, addr)
        else if b.ctl != Creating && !f.modifying && !f.ignore then
          v.(cache := Prioritize(SetLine(v.cache, l, Refit(v.sizes, b, addr), ver, 0), l, f.prio))
        else v.(cache := DropLru(v.cache, l),
                store := if f.modifying && b.ctl != Creating then Erased(v.store, k)
                         else if f.modifying || b.ctl == Creating then Forgotten(v.store, k) else v.store)
  {
  }

  lemma EraseCount(v: Vinyl, key: Key)
    ensures |Erase(v, key).v.store.recs| <= |v.store.recs|
  {
    if key in v.store.recs { assert Erased(v.store, key).recs.Keys == v.store.recs.Keys - {key}; }
  }

  lemma ReleasedCtl(v: Vinyl, l: nat)
    requires Inv(v) && l < |v.cache.lines| && v.cache.lines[l].ref != 0
    ensures Stored(v.store, KeyAt(v.cache, l)) <==> BufAt(v.cache, l).ctl != Creating
    ensures v.cache.lines[l].ref >= -1
  {
    hide CacheOk, StoreOk, Szc, Val;
    HeldKnown(v, l);
    CachedKnown(v, KeyAt(v.cache, l));
  }

  lemma InvPtrAddr(v: Vinyl)
    requires Inv(v)
    ensures PtrOk(v.cache) && AddrOk(v.cache)
  {
  }

  lemma DropUncaches(c: Cache, key: Key)
    requires PtrOk(c) && AddrOk(c) && key in c.at
    ensures var c' := DropLru(c, c.at[key]); key !in c'.at && PtrOk(c')
  {
  }

  // ----- MOVE ---------------------------------------------------------------------------------------------------

  /** A line whose object has been renamed but which belongs to no key. */
  function Detached(c: Cache, l: nat, src: Key, dst: Key): Cache {
    Put(c, l, LineAt(c, l).(key := None, buf := Some(BufAt(c, l).(key := dst)))).(at := c.at - {src})
  }

  function Attached(c: Cache, l: nat, dst: Key): Cache {
    Put(c, l, LineAt(c, l).(key := Some(dst))).(at := c.at[dst := l])
  }

  lemma DetachRep(t: seq<Ele>, rows: seq<Row>, objs: map<nat, Obj>, idx: map<Key, nat>, hash: Key -> nat,
          recs: map<Key, Rec>, c: Cache, src: Key, dst: Key)
    requires Rep(t, rows, objs, idx, hash, recs, c) && AddrOk(c) && PtrOk(c) && src in c.at && src in idx
    requires c.lines[c.at[src]].buf.Some?
    ensures var l := c.at[src]; var a := c.lines[l].buf.value.addr;
      && l < |rows| && a in objs && idx[src] < |t| && t[idx[src]].Ele?
      && Rep(t[idx[src] := t[idx[src]].(line := None)], rows[l := rows[l].(ele := None)],
        objs[a := objs[a].(key := dst)], idx, hash, recs, Detached(c, l, src, dst))
  {
    hide RepTable, RepObjs, AddrOk;
    var l := c.at[src];
    var b := c.lines[l].buf.value;
    var x := c.lines[l].(key := None, buf := Some(b.(key := dst)));
    assert RowOf(rows[l], idx, c.lines[l]);
    RowsPut(rows, idx, c.lines, l, rows[l].(ele := None), x);
    TableKnown(t, idx, hash, recs, c.at, src);
    TableLine(t, idx, hash, recs, c.at, src, c.at - {src});
    ObjsPut(objs, c, l, x);
    ObjKnown(objs, c.lines, l);
    assert (objs - {b.addr})[b.addr := ObjOf(b.(key := dst), l)] == objs[b.addr := objs[b.addr].(key := dst)];
  }

  lemma ObjKnown(objs: map<nat, Obj>, lines: seq<Line>, l: nat)
    requires RepObjs(objs, lines) && l < |lines| && lines[l].buf.Some?
    ensures lines[l].buf.value.addr in objs && objs[lines[l].buf.value.addr] == ObjOf(lines[l].buf.value, l)
  {
  }

  lemma DetachPtr(c: Cache, src: Key, dst: Key)
    requires PtrOk(c) && src in c.at
    ensures var c' := Detached(c, c.at[src], src, dst); PtrOk(c') && src !in c'.at && c'.order == c.order
  {
  }

  lemma AttachRep(t: seq<Ele>, rows: seq<Row>, objs: map<nat, Obj>, idx: map<Key, nat>, hash: Key -> nat,
          recs: map<Key, Rec>, c: Cache, l: nat, dst: Key)
    requires Rep(t, rows, objs, idx, hash, recs, c) && dst in idx && dst !in c.at && l < |c.lines|
    ensures |rows| == |c.lines| && idx[dst] < |t| && t[idx[dst]].Ele?
    ensures Rep(t[idx[dst] := t[idx[dst]].(line := Some(l))], rows[l := rows[l].(ele := Some(idx[dst]))], objs, idx,
        hash, recs, Attached(c, l, dst))
  {
    hide RepTable, RepObjs;
    var x := c.lines[l].(key := Some(dst));
    assert RowOf(rows[l], idx, c.lines[l]);
    RowsPut(rows, idx, c.lines, l, rows[l].(ele := Some(idx[dst])), x);
    TableKnown(t, idx, hash, recs, c.at, dst);
    TableLine(t, idx, hash, recs, c.at, dst, c.at[dst := l]);
    ObjsSame(objs, c, l, x);
  }

  /** The three parts of a move on the arrays: src leaves the meta, dst enters it with
      src's line, and the log and the garbage counters grow. */
  function MovedOut(v: Vinyl, l: nat, src: Key, dst: Key): Vinyl {
    v.(cache := Detached(v.cache, l, src, dst), store := v.store.(recs := v.store.recs - {src}))
  }

  function MovedIn(v: Vinyl, l: nat, dst: Key, r: Rec): Vinyl {
    v.(cache := Attached(v.cache, l, dst), store := v.store.(recs := v.store.recs[dst := r]))
  }

  function MoveLogged(v: Vinyl, dst: Key, b: Buf, esz: nat): Vinyl {
    var moved := MoveBlk(dst, b.info, b.ctl, dst);
    var pair := PairBlk(dst, b.info, b.ctl, Front(b.val, b.info.valSz));
    v.(store := v.store.(log := v.store.log + [moved] + [pair], garbageCnt := v.store.garbageCnt + 2,
                         garbageSz := v.store.garbageSz + (PairSz(esz) + 128)))
  }

  lemma MovedOutKnown(v: Vinyl, l: nat, src: Key, dst: Key)
    requires dst !in v.cache.at && l < |v.cache.lines| && src in v.store.recs && dst !in v.store.recs
    ensures var v' := MovedOut(v, l, src, dst);
      && dst !in v'.cache.at && |v'.cache.lines| == |v.cache.lines|
      && dst !in v'.store.recs && |v'.store.recs| == |v.store.recs| - 1 && v'.store.log == v.store.log
  {
    assert (v.store.recs - {src}).Keys == v.store.recs.Keys - {src};
  }

  lemma MoveOverIs(v: Vinyl, src: Key, dst: Key)
    requires src in v.cache.at && v.cache.at[src] < |v.cache.lines|
    ensures var l := v.cache.at[src]; var b := BufAt(v.cache, l);
      MoveOver(v, src, dst) == v.(cache := Attached(Detached(v.cache, l, src, dst), l, dst),
                                  store := Moved(v.store, src, dst, b.info, b.ctl, Front(b.val, b.info.valSz)))
  {
  }

  lemma MoveOverAs(v: Vinyl, l: nat, src: Key, dst: Key)
    requires src in v.cache.at && v.cache.at[src] == l < |v.cache.lines| && Stored(v.store, src)
    ensures var b := BufAt(v.cache, l); var r := Rec(b.ctl, b.info, Size(v.store.log) + 128);
      MoveOver(v, src, dst) ==
        MoveLogged(MovedIn(MovedOut(v, l, src, dst), l, dst, r), dst, b, v.store.recs[src].ctl.esz)
  {
    hide Size, Front;
    var b := BufAt(v.cache, l);
    MoveOverIs(v, src, dst);
    Appended(v.store.log, MoveBlk(dst, b.info, b.ctl, dst));
  }

  /** One more block of garbage. */
  function Counted(v: Vinyl, sz: nat): Vinyl {
    v.(store := v.store.(garbageCnt := v.store.garbageCnt + 1, garbageSz := v.store.garbageSz + sz))
  }

  lemma MoveClearAs(v: Vinyl, dst: Key)
    requires Stored(v.store, dst)
    ensures var v1 := Counted(v, PairSz(v.store.recs[dst].ctl.esz));
      var v2 := if dst in v.cache.at then v1.(cache := DropLru(v.cache, v.cache.at[dst])) else v1;
      MoveClear(v, dst) == v2.(store := Forgotten(v2.store, dst))
  {
  }

  lemma CountersInv(v: Vinyl, v': Vinyl)
    requires Inv(v) && v' == v.(store := v'.store) && v'.store.recs == v.store.recs && v'.store.log == v.store.log
    requires v'.store.pairCnt == v.store.pairCnt
    ensures Inv(v')
  {
    hide AddrOk, OrderOk, PtrOk, BlockAt;
    AgreeSelf(v.store, {});
    CountersFree(v.sizes, v.store, v.store, v'.store, {});
    forall l | 0 <= l < |v.cache.lines|
      ensures LineOk(v.sizes, v'.store, v.cache.lines[l])
    {
      LineFrame(v.sizes, v.store, v'.store, {}, v.cache.lines[l]);
    }
    forall k
      ensures KeyOk(v'.store, v.cache, k)
    {
      assert KeyOk(v.store, v.cache, k);
    }
  }

  lemma MoveCount(v: Vinyl, src: Key, dst: Key, addr: nat)
    requires Inv(v) && |v.store.recs| <= v.pairMax && Evictable(v.cache) && MoveAddr(v, src, dst, addr)
    ensures |Move(v, src, dst, addr).v.store.recs| <= v.pairMax
  {
    hide Inv, Evictable, MoveAddr, MoveLoad, MoveClear, MoveOver, Committed, Held;
    MoveOk(v, src, dst, addr);
    if src != dst && Move(v, src, dst, addr).err == Success {
      MoveLoadOk(v, src, dst, addr);
      var v1 := MoveLoad(v, src, addr);
      MoveClearOk(v1, src, dst);
      ClearedCount(v1, dst);
      MoveOverCount(MoveClear(v1, dst), src, dst);
    }
  }

  lemma MoveOverCount(v: Vinyl, src: Key, dst: Key)
    requires src in v.cache.at && dst !in v.store.recs && src in v.store.recs
    ensures |MoveOver(v, src, dst).store.recs| == |v.store.recs|
  {
    var b := BufAt(v.cache, v.cache.at[src]);
    VinylRun.MovedCount(v.store, src, dst, b.info, b.ctl, Front(b.val, b.info.valSz));
  }

  lemma DstUnheld(v: Vinyl, dst: Key, found: bool)
    requires Inv(v) && (found <==> dst in v.store.recs) && (found ==> !Held(v, dst))
    ensures !Held(v, dst)
  {
    hide Inv;
    if Held(v, dst) { HeldRec(v, dst); }
  }

  /** Loading src evicts dst's line exactly when it ends up in that line. */
  lemma MoveLoadAlias(v: Vinyl, src: Key, dst: Key, addr: nat)
    requires Inv(v) && Evictable(v.cache) && src != dst && src in v.store.recs
    ensures var c := MoveLoad(v, src, addr).cache;
      && src in c.at
      && c.at[src] == (if src in v.cache.at then v.cache.at[src] else Victim(v.cache.lines, v.cache.order))
      && (dst in c.at <==> dst in v.cache.at && v.cache.at[dst] != c.at[src])
      && (dst in c.at ==> c.at[dst] == v.cache.at[dst])
  {
    hide StoreOk, Victim, LinesOk, AddrOk, OrderOk, KeyOk;
    if src !in v.cache.at { VictimStored(v.sizes, v.store, v.cache); }
  }

  lemma ClearedKeeps(v: Vinyl, src: Key, dst: Key)
    requires Inv(v) && src != dst && src in v.store.recs
    ensures src in MoveClear(v, dst).store.recs
  {
  }

  lemma ClearsNothing(v: Vinyl, dst: Key)
    requires dst !in v.store.recs
    ensures MoveClear(v, dst) == v
  {
  }

  lemma ClearedCount(v: Vinyl, dst: Key)
    ensures |MoveClear(v, dst).store.recs| <= |v.store.recs|
  {
    if dst in v.store.recs { assert MoveClear(v, dst).store.recs.Keys == v.store.recs.Keys - {dst}; }
  }
}
