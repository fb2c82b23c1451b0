/** What one item of every vinyl request does to the store and its cache. Where an
    access would be out of bounds a default stands in; the invariant rules those
    cases out. */
module VinylStep {
  import opened Basics
  import opened VinylTypes

  const FREE_LINE := Line(None, None, 0, 0)
  const NO_BUF := Buf(0, 0, Creating, 0, NO_INFO, [])

  datatype Flags = Flags(modifying: bool, ignore: bool, create: bool, excl: bool, erase: bool, prio: Prio)
  datatype Reply = Reply(v: Vinyl, err: Err)

  /** How append encodes a pair: raw, or compressed to esz bytes. */
  datatype Encoding = Encoding(raw: bool, esz: nat)

  // ----- the cache -----------------------------------------------------------------

  function LineAt(c: Cache, l: nat): Line {
    if l < |c.lines| then c.lines[l] else FREE_LINE
  }

  function BufAt(c: Cache, l: nat): Buf {
    match LineAt(c, l).buf
    case Some(b) => b
    case None => NO_BUF
  }

  function KeyAt(c: Cache, l: nat): Key {
    match LineAt(c, l).key
    case Some(k) => k
    case None => 0
  }

  function Put(c: Cache, l: nat, x: Line): Cache {
    if l < |c.lines| then c.(lines := c.lines[l := x]) else c
  }

  /** The next and the previous line version, in 32 bits. */
  function Bump(ver: nat): (r: nat)
    ensures r < 0x1_0000_0000
  {
    (ver + 1) % 0x1_0000_0000
  }

  function Unbump(ver: nat): (r: nat)
    ensures r < 0x1_0000_0000
  {
    (ver + 0xFFFF_FFFF) % 0x1_0000_0000
  }

  function Without(order: seq<nat>, l: nat): (r: seq<nat>)
    ensures forall x :: x in r <==> x in order && x != l
  {
    if order == [] then [] else (if order[0] == l then [] else [order[0]]) + Without(order[1..], l)
  }

  function Prioritize(c: Cache, l: nat, p: Prio): Cache {
    match p
    case Mru => c.(order := Without(c.order, l) + [l])
    case Lru => c.(order := [l] + Without(c.order, l))
    case Unc => c
  }

  /** The least recently used line that nobody holds. */
  function Victim(lines: seq<Line>, order: seq<nat>): (l: nat)
    ensures l < |lines| ==> lines[l].ref == 0
    ensures (exists x :: x in order && x < |lines| && lines[x].ref == 0) ==> l < |lines| && l in order
  {
    if order == [] then |lines|
    else if order[0] < |lines| && lines[order[0]].ref == 0 then order[0]
    else
      assert forall x | x in order && x != order[0] :: x in order[1..];
      Victim(lines, order[1..])
  }

  /** Empties a line. */
  function Drop(c: Cache, l: nat): Cache {
    var at := match LineAt(c, l).key case Some(k) => c.at - {k} case None => c.at;
    Put(c, l, Line(None, None, Bump(LineAt(c, l).ver), 0)).(at := at)
  }

  function DropLru(c: Cache, l: nat): Cache {
    Prioritize(Drop(c, l), l, Lru)
  }

  /** Fills an empty line. */
  function Install(c: Cache, l: nat, key: Key, buf: Buf, ref: int): Cache {
    Put(c, l, Line(Some(key), Some(buf), Bump(LineAt(c, l).ver), ref)).(at := c.at[key := l])
  }

  /** Evicts the victim and caches a pair in its line. */
  function Load(c: Cache, key: Key, buf: Buf, ref: int, p: Prio): Cache {
    var l := Victim(c.lines, c.order);
    Prioritize(Install(Drop(c, l), l, key, buf, ref), l, p)
  }

  /** Sets a held line's buffer and control word. */
  function SetLine(c: Cache, l: nat, buf: Buf, ver: nat, ref: int): Cache {
    Put(c, l, LineAt(c, l).(buf := Some(buf), ver := ver, ref := ref))
  }

  // ----- buffers ---------------------------------------------------------------------

  function Max(a: nat, b: nat): nat { if a < b then b else a }

  function ClassOf(sizes: seq<nat>, sz: nat): nat {
    if ValidSizes(sizes) && sz <= ValMax(sizes) then Szc(sizes, sz) else 0
  }

  function Room(sizes: seq<nat>, szc: nat): nat {
    if szc < |sizes| then sizes[szc] else 0
  }

  function Front(val: seq<int>, n: nat): seq<int> {
    if n <= |val| then val[..n] else val
  }

  /** A value region of a size class, holding val and zero behind it. */
  function Region(sizes: seq<nat>, szc: nat, val: seq<int>): seq<int> {
    if |val| <= Room(sizes, szc) then Padded(val, Room(sizes, szc)) else val
  }

  /** Moves a buffer into another size class, keeping the first n value bytes; the
      object is reallocated exactly when the class changes. */
  function Resize(sizes: seq<nat>, b: Buf, szc: nat, n: nat, addr: nat): Buf {
    b.(addr := if szc == b.szc then b.addr else addr, szc := szc, val := Region(sizes, szc, Front(b.val, n)))
  }

  /** Puts a released buffer into its tightest class; bytes behind the value are
      unspecified after a move and kept otherwise. */
  function Refit(sizes: seq<nat>, b: Buf, addr: nat): Buf {
    var szc := ClassOf(sizes, b.info.valSz);
    if szc == b.szc then b else b.(addr := addr, szc := szc, val := Region(sizes, szc, Front(b.val, b.info.valSz)))
  }

  /** A stored pair read back from the log into a fresh object. */
  function ReadBuf(v: Vinyl, key: Key, room: nat, addr: nat): Buf
    requires key in v.store.recs
  {
    var r := v.store.recs[key];
    var szc := ClassOf(v.sizes, room);
    Buf(addr, szc, Pair(true, r.info.valSz), key, r.info, Region(v.sizes, szc, Val(v.store, key)))
  }

  // ----- ACQUIRE -----------------------------------------------------------------------

  function Acquire(v: Vinyl, f: Flags, key: Key, valMax: nat, addr: nat): Reply {
    if f.modifying && (v.sizes == [] || valMax > ValMax(v.sizes)) then Reply(v, ErrInval)
    else if key !in v.store.recs then
      if f.modifying && f.create then Reply(AcquireCreate(v, f, key, valMax, addr), Success) else Reply(v, ErrKey)
    else if v.store.recs[key].ctl.Creating? then Reply(v, ErrAgain)
    else if key in v.cache.at then AcquireCached(v, f, v.cache.at[key], valMax, addr)
    else if f.modifying && f.excl then Reply(v, ErrInval)
    else Reply(AcquireUncached(v, f, key, valMax, addr), Success)
  }

  /** The acquire starts a new pair. */
  predicate Creates(v: Vinyl, f: Flags, key: Key, valMax: nat) {
    f.modifying && f.create && key !in v.store.recs && v.sizes != [] && valMax <= ValMax(v.sizes)
  }

  /** The acquire evicts a line for the pair it loads or starts. */
  predicate AcquireEvicts(v: Vinyl, f: Flags, key: Key, valMax: nat) {
    if key !in v.store.recs then Creates(v, f, key, valMax)
    else
      && Stored(v.store, key) && key !in v.cache.at
      && (f.modifying ==> !f.excl && v.sizes != [] && valMax <= ValMax(v.sizes))
  }

  /** The acquire moves a cached pair to an object of another size class. */
  predicate AcquireResizes(v: Vinyl, f: Flags, key: Key, valMax: nat) {
    && v.sizes != [] && valMax <= ValMax(v.sizes) && Stored(v.store, key) && key in v.cache.at
    && Resizes(v, f, v.cache.at[key], valMax)
  }

  predicate Resizes(v: Vinyl, f: Flags, l: nat, valMax: nat) {
    && f.modifying && !f.excl && LineAt(v.cache, l).ref == 0
    && ClassOf(v.sizes, Max(if f.ignore then 0 else BufAt(v.cache, l).info.valSz, valMax)) != BufAt(v.cache, l).szc
  }

  function AcquireCached(v: Vinyl, f: Flags, l: nat, valMax: nat, addr: nat): Reply {
    var line := LineAt(v.cache, l);
    if !f.modifying then
      if line.ref < 0 then Reply(v, ErrAgain)
      else Reply(v.(cache := Put(v.cache, l, line.(ref := line.ref + 1))), Success)
    else if line.ref != 0 then Reply(v, ErrAgain)
    else if f.excl then Reply(v, ErrInval)
    else
      var b := if f.ignore then BufAt(v.cache, l).(info := BufAt(v.cache, l).info.(valSz := 0)) else BufAt(v.cache, l);
      var szc := ClassOf(v.sizes, Max(b.info.valSz, valMax));
      var b' := Resize(v.sizes, b, szc, b.info.valSz, addr);
      Reply(v.(cache := Prioritize(SetLine(v.cache, l, b', Bump(line.ver), -1), l, f.prio)), Success)
  }

  function AcquireUncached(v: Vinyl, f: Flags, key: Key, valMax: nat, addr: nat): Vinyl
    requires key in v.store.recs
  {
    var r := v.store.recs[key];
    var room := if !f.modifying then r.info.valSz else if !f.ignore then Max(r.info.valSz, valMax) else valMax;
    var b := ReadBuf(v, key, room, addr);
    var b' := if f.modifying && f.ignore
      then b.(info := r.info.(valSz := 0), val := Region(v.sizes, b.szc, []))
      else b;
    v.(cache := Load(v.cache, key, b', if f.modifying then -1 else 1, f.prio))
  }

  function AcquireCreate(v: Vinyl, f: Flags, key: Key, valMax: nat, addr: nat): Vinyl {
    var szc := ClassOf(v.sizes, valMax);
    var b := Buf(addr, szc, Creating, key, NO_INFO, Region(v.sizes, szc, []));
    v.(cache := Load(v.cache, key, b, -1, f.prio),
       store := v.store.(recs := v.store.recs[key := Rec(Creating, NO_INFO, 0)], pairCnt := v.store.pairCnt + 1))
  }

  // ----- RELEASE -----------------------------------------------------------------------

  /** The line a release by key means, if that key is acquired at all. */
  function ByKey(v: Vinyl, key: Key): Option<nat> {
    if key in v.store.recs && key in v.cache.at && LineAt(v.cache, v.cache.at[key]).ref != 0
    then Some(v.cache.at[key]) else None
  }

  /** The line a release by value address means. */
  function ByAddr(c: Cache, addr: nat, l: nat): Option<nat>
    decreases |c.lines| - l
  {
    if l >= |c.lines| then None
    else if c.lines[l].buf.Some? && c.lines[l].buf.value.addr == addr && c.lines[l].ref != 0 then Some(l)
    else ByAddr(c, addr, l + 1)
  }

  function Release(v: Vinyl, f: Flags, at: Option<nat>, e: Encoding, addr: nat): Reply {
    match at
    case None => Reply(v, ErrInval)
    case Some(l) => Reply(ReleaseLine(v, f, l, e, addr), Success)
  }

  function ReleaseLine(v: Vinyl, f: Flags, l: nat, e: Encoding, addr: nat): Vinyl {
    var line := LineAt(v.cache, l);
    var b := BufAt(v.cache, l);
    if line.ref > 0 then
      v.(cache := Put(Prioritize(v.cache, l, f.prio), l, line.(ref := line.ref - 1)))
    else if f.modifying && !f.erase then Commit(v, f, l, e, addr)
    else if b.ctl != Creating && !f.modifying && !f.ignore then
      var b' := Refit(v.sizes, b, addr);
      v.(cache := Prioritize(SetLine(v.cache, l, b', Unbump(line.ver), 0), l, f.prio))
    else if b.ctl != Creating && !f.modifying then
      v.(cache := DropLru(v.cache, l))
    else if b.ctl != Creating then
      v.(cache := DropLru(v.cache, l), store := Erased(v.store, KeyAt(v.cache, l)))
    else
      v.(cache := DropLru(v.cache, l), store := Forgotten(v.store, KeyAt(v.cache, l)))
  }

  /** The release moves the pair to an object of its tightest size class. */
  predicate Refits(v: Vinyl, f: Flags, l: nat) {
    var b := BufAt(v.cache, l);
    && LineAt(v.cache, l).ref < 0 && ClassOf(v.sizes, b.info.valSz) != b.szc
    && (if f.modifying then !f.erase else !f.ignore && b.ctl != Creating)
  }

  function Commit(v: Vinyl, f: Flags, l: nat, e: Encoding, addr: nat): Vinyl {
    var line := LineAt(v.cache, l);
    var b := BufAt(v.cache, l);
    var b' := Refit(v.sizes, b, addr).(ctl := Pair(true, b.info.valSz));
    v.(cache := Prioritize(SetLine(v.cache, l, b', Bump(line.ver), 0), l, f.prio),
       store := Written(v.store, KeyAt(v.cache, l), b.info, Pair(e.raw, e.esz), Front(b.val, b.info.valSz)))
  }

  /** Bytes of garbage a key's old pair becomes. */
  function OldSz(s: Store, k: Key): nat {
    if Stored(s, k) then PairSz(s.recs[k].ctl.esz) else 0
  }

  function Written(s: Store, k: Key, info: Info, ctl: Ctl, val: seq<int>): Store {
    Store(s.recs[k := Rec(ctl, info, Size(s.log))], s.log + [PairBlk(k, info, ctl, val)], s.pairCnt,
          s.garbageCnt + (if Stored(s, k) then 1 else 0), s.garbageSz + OldSz(s, k))
  }

  function Forgotten(s: Store, k: Key): Store {
    s.(recs := s.recs - {k}, pairCnt := s.pairCnt - 1)
  }

  function Erased(s: Store, k: Key): Store {
    if !Stored(s, k) then Forgotten(s, k)
    else
      var r := s.recs[k];
      Store(s.recs - {k}, s.log + [DeadBlk(k, r.info, r.ctl)], s.pairCnt - 1,
            s.garbageCnt + 2, s.garbageSz + PairSz(r.ctl.esz) + 128)
  }

  // ----- ERASE, FLUSH, FETCH -------------------------------------------------------------

  function Erase(v: Vinyl, key: Key): Reply {
    if key !in v.store.recs then Reply(v, ErrKey)
    else if key in v.cache.at then
      if LineAt(v.cache, v.cache.at[key]).ref != 0 then Reply(v, ErrAgain)
      else Reply(v.(cache := DropLru(v.cache, v.cache.at[key]), store := Erased(v.store, key)), Success)
    else Reply(v.(store := Erased(v.store, key)), Success)
  }

  function Flush(v: Vinyl, key: Key): Vinyl {
    if key !in v.store.recs || key !in v.cache.at then v
    else
      var l := v.cache.at[key];
      if LineAt(v.cache, l).ref != 0 then v.(cache := Prioritize(v.cache, l, Lru)) else v.(cache := DropLru(v.cache, l))
  }

  predicate FetchEvicts(v: Vinyl, key: Key) {
    Stored(v.store, key) && key !in v.cache.at
  }

  function Fetch(v: Vinyl, key: Key, addr: nat): Vinyl {
    if key !in v.store.recs || v.store.recs[key].ctl.Creating? then v
    else if key in v.cache.at then v.(cache := Prioritize(v.cache, v.cache.at[key], Mru))
    else v.(cache := Load(v.cache, key, ReadBuf(v, key, v.store.recs[key].info.valSz, addr), 0, Mru))
  }

  // ----- MOVE --------------------------------------------------------------------------------

  predicate Held(v: Vinyl, key: Key) {
    key in v.cache.at && LineAt(v.cache, v.cache.at[key]).ref != 0
  }

  predicate MoveEvicts(v: Vinyl, src: Key, dst: Key) {
    src != dst && !Held(v, dst) && src in v.store.recs && src !in v.cache.at
  }

  function Move(v: Vinyl, src: Key, dst: Key, addr: nat): Reply {
    if src == dst then Reply(v, Success)
    else if dst in v.store.recs && Held(v, dst) then Reply(v, ErrAgain)
    else if src !in v.store.recs then Reply(v, ErrKey)
    else if Held(v, src) then Reply(v, ErrAgain)
    else Reply(MoveOver(MoveClear(MoveLoad(v, src, addr), dst), src, dst), Success)
  }

  /** Has src cached, unheld, with a new version. */
  function MoveLoad(v: Vinyl, src: Key, addr: nat): Vinyl
    requires src in v.store.recs
  {
    if src in v.cache.at then
      var l := v.cache.at[src];
      v.(cache := Put(v.cache, l, LineAt(v.cache, l).(ver := Bump(LineAt(v.cache, l).ver), ref := 0)))
    else v.(cache := Load(v.cache, src, ReadBuf(v, src, v.store.recs[src].info.valSz, addr), 0, Lru))
  }

  /** Removes dst, if it exists, from the cache and from the meta. */
  function MoveClear(v: Vinyl, dst: Key): Vinyl {
    if dst !in v.store.recs then v
    else
      var c := if dst in v.cache.at then DropLru(v.cache, v.cache.at[dst]) else v.cache;
      v.(cache := c, store := Forgotten(v.store, dst).(garbageCnt := v.store.garbageCnt + 1,
                                                       garbageSz := v.store.garbageSz + OldSz(v.store, dst)))
  }

  /** The store part of a move. The cached header already names dst when the move
      block is written from it, so the block's source key is dst too. */
  function Moved(s: Store, src: Key, dst: Key, info: Info, ctl: Ctl, val: seq<int>): Store {
    var log := s.log + [MoveBlk(dst, info, ctl, dst)];
    Store((s.recs - {src})[dst := Rec(ctl, info, Size(log))], log + [PairBlk(dst, info, ctl, val)],
          s.pairCnt, s.garbageCnt + 2, s.garbageSz + OldSz(s, src) + 128)
  }

  /** Gives src's cached pair the name dst. */
  function MoveOver(v: Vinyl, src: Key, dst: Key): Vinyl {
    if src !in v.cache.at then v
    else
      var l := v.cache.at[src];
      var b := BufAt(v.cache, l).(key := dst);
      var c := Put(v.cache, l, LineAt(v.cache, l).(key := Some(dst), buf := Some(b)));
      v.(cache := c.(at := (v.cache.at - {src})[dst := l]),
         store := Moved(v.store, src, dst, b.info, b.ctl, Front(b.val, b.info.valSz)))
  }

  // ----- what a client does between requests --------------------------------------------------

  /** A client writes into a buffer it holds for modify. */
  function ClientWrite(v: Vinyl, l: nat, info: Info, val: seq<int>): Vinyl {
    if LineAt(v.cache, l).ref != -1 || |val| != |BufAt(v.cache, l).val| then v
    else v.(cache := Put(v.cache, l, LineAt(v.cache, l).(buf := Some(BufAt(v.cache, l).(info := info, val := val)))))
  }
}
