/** Data model of the vinyl key-value store: meta records, cache lines, the
    append-only log and its byte addressing. */
module VinylTypes {
  import opened Basics

  type Key = nat

  /** Pair info: the decoded value size and 12 bytes the application owns. */
  datatype Info = Info(valSz: nat, app: int)

  const NO_INFO := Info(0, 0)

  /** Pair control word: being created, or a pair stored raw or compressed with an
      encoded value size. */
  datatype Ctl = Creating | Pair(raw: bool, esz: nat)

  /** What the meta keeps about a key, apart from where it is cached. */
  datatype Rec = Rec(ctl: Ctl, info: Info, pos: nat)

  /** A data object: pair header and value region as cached in memory. */
  datatype Buf = Buf(addr: nat, szc: nat, ctl: Ctl, key: Key, info: Info, val: seq<int>)

  /** A cache line. ref is -1 when acquired for modify, otherwise the number of
      acquires for read. */
  datatype Line = Line(key: Option<Key>, buf: Option<Buf>, ver: nat, ref: int)

  /** Log blocks. A pair block carries its decoded value. */
  datatype Block =
    | PairBlk(key: Key, info: Info, ctl: Ctl, val: seq<int>)
    | DeadBlk(key: Key, info: Info, ctl: Ctl)
    | MoveBlk(src: Key, info: Info, ctl: Ctl, dst: Key)

  /** The persistent side: meta records, log and counters. */
  datatype Store = Store(recs: map<Key, Rec>, log: seq<Block>, pairCnt: int, garbageCnt: nat, garbageSz: nat)

  /** The cache: lines, the line of every cached key, and the eviction sequence
      from least to most recently used. */
  datatype Cache = Cache(lines: seq<Line>, at: map<Key, nat>, order: seq<nat>)

  /** sizes gives the largest value of every data size class. */
  datatype Vinyl = Vinyl(sizes: seq<nat>, pairMax: nat, store: Store, cache: Cache)

  datatype Err = Success | ErrInval | ErrAgain | ErrKey | ErrFull

  datatype Prio = Mru | Lru | Unc

  // ----- size classes -----------------------------------------------------------

  predicate ValidSizes(sizes: seq<nat>) {
    sizes != [] && forall i, j | 0 <= i < j < |sizes| :: sizes[i] < sizes[j]
  }

  function ValMax(sizes: seq<nat>): nat
    requires sizes != []
  {
    sizes[|sizes| - 1]
  }

  /** The tightest size class that fits a value. */
  function Szc(sizes: seq<nat>, sz: nat): (c: nat)
    requires ValidSizes(sizes) && sz <= ValMax(sizes)
    ensures c < |sizes| && sz <= sizes[c] && forall d | 0 <= d < c :: sizes[d] < sz
  {
    SzcFrom(sizes, sz, 0)
  }

  function SzcFrom(sizes: seq<nat>, sz: nat, i: nat): (c: nat)
    requires i < |sizes| && sz <= sizes[|sizes| - 1]
    ensures i <= c < |sizes| && sz <= sizes[c] && forall d | i <= d < c :: sizes[d] < sz
    decreases |sizes| - i
  {
    if sz <= sizes[i] then i else SzcFrom(sizes, sz, i + 1)
  }

  function Zeros(n: nat): (z: seq<int>)
    ensures |z| == n
  {
    seq(n, i => 0)
  }

  /** A value at the front of a zeroed region. */
  function Padded(val: seq<int>, n: nat): (r: seq<int>)
    requires |val| <= n
    ensures |r| == n && r[..|val|] == val
  {
    val + Zeros(n - |val|)
  }

  // ----- the log ------------------------------------------------------------------

  /** Footprint of a pair: header, encoded value, footer, rounded up to blocks. */
  function PairSz(esz: nat): (n: nat)
    ensures n >= 128
  {
    (56 + esz + 16 + 127) / 128 * 128
  }

  /** It is the least number of whole blocks with room for all three. */
  lemma PairSzTight(esz: nat, n: nat)
    ensures PairSz(esz) % 128 == 0 && 56 + esz + 16 <= PairSz(esz)
    ensures n % 128 == 0 && 56 + esz + 16 <= n ==> PairSz(esz) <= n
  {
    var k := n / 128;
    assert n == 128 * k + n % 128;
  }

  function BlockSz(b: Block): (n: nat)
    ensures n >= 128
  {
    if b.PairBlk? && b.ctl.Pair? then PairSz(b.ctl.esz) else 128
  }

  function Size(log: seq<Block>): nat {
    if log == [] then 0 else Size(log[..|log| - 1]) + BlockSz(log[|log| - 1])
  }

  /** The block that starts at a log position. */
  function BlockAt(log: seq<Block>, pos: nat): (r: Option<Block>)
    ensures r.Some? ==> pos < Size(log)
  {
    if log == [] then None
    else if pos == Size(log[..|log| - 1]) then Some(log[|log| - 1])
    else BlockAt(log[..|log| - 1], pos)
  }

  lemma Appended(log: seq<Block>, b: Block)
    ensures Size(log + [b]) == Size(log) + BlockSz(b)
    ensures BlockAt(log + [b], Size(log)) == Some(b)
    ensures forall s | BlockAt(log, s).Some? :: BlockAt(log + [b], s) == BlockAt(log, s)
  {
    assert (log + [b])[..|log|] == log;
  }

  /** Each key's last pair block in the log, unless a later block removed it. */
  function Replay(log: seq<Block>): map<Key, Rec> {
    if log == [] then map[] else Apply(Replay(log[..|log| - 1]), log[|log| - 1], Size(log[..|log| - 1]))
  }

  function Apply(m: map<Key, Rec>, b: Block, pos: nat): map<Key, Rec> {
    match b
    case PairBlk(key, info, ctl, _) => m[key := Rec(ctl, info, pos)]
    case DeadBlk(key, _, _) => m - {key}
    case MoveBlk(src, _, _, _) => m - {src}
  }

  lemma Replayed(log: seq<Block>, b: Block)
    ensures Replay(log + [b]) == Apply(Replay(log), b, Size(log))
  {
    assert (log + [b])[..|log|] == log;
  }

  // ----- committed pairs ------------------------------------------------------------

  datatype Content = Content(info: Info, val: seq<int>)

  /** A stored record and the log block it names agree. */
  ghost predicate RecOk(sizes: seq<nat>, s: Store, k: Key)
    requires sizes != []
  {
    k in s.recs && s.recs[k].ctl.Pair? ==>
      var r := s.recs[k];
      && BlockAt(s.log, r.pos).Some?
      && var b := BlockAt(s.log, r.pos).value;
      && b.PairBlk? && b.key == k && b.info == r.info && b.ctl == r.ctl
      && |b.val| == r.info.valSz <= ValMax(sizes)
      && (r.ctl.raw ==> r.ctl.esz == r.info.valSz)
  }

  ghost predicate StoreOk(sizes: seq<nat>, s: Store)
    requires sizes != []
  {
    && (forall k {:trigger k in s.recs} {:trigger RecOk(sizes, s, k)} :: RecOk(sizes, s, k))
    && s.pairCnt == |s.recs|
  }

  /** The value of the pair block at a log position. */
  function ReadVal(log: seq<Block>, pos: nat): seq<int> {
    match BlockAt(log, pos)
    case Some(PairBlk(_, _, _, val)) => val
    case _ => []
  }

  function Val(s: Store, k: Key): seq<int>
    requires k in s.recs
  {
    ReadVal(s.log, s.recs[k].pos)
  }

  predicate Stored(s: Store, k: Key) {
    k in s.recs && s.recs[k].ctl.Pair?
  }

  /** The map the store promises to its clients and to recovery. */
  function Committed(s: Store): map<Key, Content> {
    map k | k in s.recs && Stored(s, k) :: Content(s.recs[k].info, Val(s, k))
  }
}
