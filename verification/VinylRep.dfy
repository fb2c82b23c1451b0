/** How the tile's arrays represent the abstract store: table slots, line rows and
    data objects against records, cache lines and buffers. */
module VinylRep {
  import opened Basics
  import opened VinylTypes
  import opened VinylStep
  import opened VinylInv
  import opened VinylTable

  /** A data object with its pointer back to the line. */
  datatype Obj = Obj(line: nat, szc: nat, ctl: Ctl, key: Key, info: Info, val: seq<int>)

  function ObjOf(b: Buf, l: nat): Obj {
    Obj(l, b.szc, b.ctl, b.key, b.info, b.val)
  }

  function BufOf(o: Obj, addr: nat): Buf {
    Buf(addr, o.szc, o.ctl, o.key, o.info, o.val)
  }

  function EleOf(hash: Key -> nat, k: Key, r: Rec, at: map<Key, nat>): Ele {
    Ele(hash(k), k, r, if k in at then Some(at[k]) else None)
  }

  /** Slots hold exactly the records, each with the line its key is cached in. */
  ghost predicate RepTable(t: seq<Ele>, idx: map<Key, nat>, hash: Key -> nat, recs: map<Key, Rec>, at: map<Key, nat>) {
    && TableOk(t, idx, hash) && idx.Keys == recs.Keys
    && forall k | k in idx :: t[idx[k]] == EleOf(hash, k, recs[k], at)
  }

  ghost predicate RowOf(row: Row, idx: map<Key, nat>, x: Line) {
    && row.ver == x.ver && row.ref == x.ref
    && row.obj == (match x.buf case Some(b) => Some(b.addr) case None => None)
    && match x.key
       case Some(k) => k in idx && row.ele == Some(idx[k])
       case None => row.ele == None
  }

  ghost predicate RepRows(rows: seq<Row>, idx: map<Key, nat>, lines: seq<Line>) {
    |rows| == |lines| && forall l | 0 <= l < |rows| :: RowOf(rows[l], idx, lines[l])
  }

  /** Objects hold exactly the buffers. */
  ghost predicate RepObjs(objs: map<nat, Obj>, lines: seq<Line>) {
    && (forall l: nat | l < |lines| && lines[l].buf.Some? ::
          lines[l].buf.value.addr in objs && objs[lines[l].buf.value.addr] == ObjOf(lines[l].buf.value, l))
    && (forall a | a in objs ::
          objs[a].line < |lines| && lines[objs[a].line].buf.Some? && lines[objs[a].line].buf.value.addr == a)
  }

  ghost predicate Rep(t: seq<Ele>, rows: seq<Row>, objs: map<nat, Obj>, idx: map<Key, nat>, hash: Key -> nat,
                      recs: map<Key, Rec>, c: Cache) {
    RepTable(t, idx, hash, recs, c.at) && RepRows(rows, idx, c.lines) && RepObjs(objs, c.lines)
  }

  // ----- objects -----------------------------------------------------------------------------

  /** Replacing the object of a line; a new object has an address no other line has. */
  lemma ObjsPut(objs: map<nat, Obj>, c: Cache, l: nat, x: Line)
    requires RepObjs(objs, c.lines) && AddrOk(c) && l < |c.lines| && x.buf.Some?
    requires FreshAddr(c, x.buf.value.addr) || (c.lines[l].buf.Some? && x.buf.value.addr == c.lines[l].buf.value.addr)
    ensures var gone := if c.lines[l].buf.Some? then {c.lines[l].buf.value.addr} else {};
      RepObjs((objs - gone)[x.buf.value.addr := ObjOf(x.buf.value, l)], c.lines[l := x])
  {
  }

  lemma ObjsDrop(objs: map<nat, Obj>, c: Cache, l: nat, x: Line)
    requires RepObjs(objs, c.lines) && AddrOk(c) && l < |c.lines| && x.buf.None?
    ensures var gone := if c.lines[l].buf.Some? then {c.lines[l].buf.value.addr} else {};
      RepObjs(objs - gone, c.lines[l := x])
  {
  }

  lemma ObjsSame(objs: map<nat, Obj>, c: Cache, l: nat, x: Line)
    requires RepObjs(objs, c.lines) && l < |c.lines| && x.buf == c.lines[l].buf
    ensures RepObjs(objs, c.lines[l := x])
  {
    assert forall k | 0 <= k < |c.lines| :: c.lines[l := x][k].buf == c.lines[k].buf;
  }

  // ----- rows -----------------------------------------------------------------------------------

  lemma RowsPut(rows: seq<Row>, idx: map<Key, nat>, lines: seq<Line>, l: nat, row: Row, x: Line)
    requires RepRows(rows, idx, lines) && l < |lines| && RowOf(row, idx, x)
    ensures RepRows(rows[l := row], idx, lines[l := x])
  {
    hide RowOf;
  }

  /** An index that grew by a key no line has. */
  lemma RowsGrow(rows: seq<Row>, idx: map<Key, nat>, lines: seq<Line>, k: Key, i: nat)
    requires RepRows(rows, idx, lines) && k !in idx
    ensures RepRows(rows, idx[k := i], lines)
  {
  }

  // ----- table ------------------------------------------------------------------------------------

  /** Changing what the slot of a key says about its line. */
  lemma TableLine(t: seq<Ele>, idx: map<Key, nat>, hash: Key -> nat, recs: map<Key, Rec>, at: map<Key, nat>, k: Key,
          at': map<Key, nat>)
    requires RepTable(t, idx, hash, recs, at) && k in idx
    requires forall j | j != k :: (j in at <==> j in at') && (j in at ==> at'[j] == at[j])
    ensures RepTable(t[idx[k] := EleOf(hash, k, recs[k], at')], idx, hash, recs, at')
  {
    UpdateOk(t, idx, hash, idx[k], EleOf(hash, k, recs[k], at'));
    KeysApart(t, idx, hash, k);
  }

  lemma KeysApart(t: seq<Ele>, idx: map<Key, nat>, hash: Key -> nat, k: Key)
    requires Indexed(t, idx, hash) && k in idx
    ensures forall j | j in idx && j != k :: idx[j] != idx[k]
  {
  }

  lemma TableRec(t: seq<Ele>, idx: map<Key, nat>, hash: Key -> nat, recs: map<Key, Rec>, at: map<Key, nat>, k: Key,
          r: Rec)
    requires RepTable(t, idx, hash, recs, at) && k in idx
    ensures RepTable(t[idx[k] := EleOf(hash, k, r, at)], idx, hash, recs[k := r], at)
  {
    UpdateOk(t, idx, hash, idx[k], EleOf(hash, k, r, at));
    KeysApart(t, idx, hash, k);
  }

  lemma TableInsert(t: seq<Ele>, idx: map<Key, nat>, hash: Key -> nat, recs: map<Key, Rec>, at: map<Key, nat>, k: Key,
          r: Rec, i: nat)
    requires RepTable(t, idx, hash, recs, at) && k !in idx && Insertable(t, hash(k), i)
    requires |recs| + 1 < |t|
    ensures RepTable(t[i := EleOf(hash, k, r, at)], idx[k := i], hash, recs[k := r], at)
  {
    StillRoom(t, idx, hash, i, EleOf(hash, k, r, at));
    InsertOk(t, idx, hash, i, EleOf(hash, k, r, at));
  }

  /** Keys in the first n slots. */
  ghost function KeysIn(t: seq<Ele>, n: nat): set<Key>
    requires n <= |t|
  {
    if n == 0 then {} else KeysIn(t, n - 1) + if t[n - 1].Ele? then {t[n - 1].key} else {}
  }

  lemma {:induction false} KeysCount(t: seq<Ele>, idx: map<Key, nat>, hash: Key -> nat, n: nat, i: nat)
    requires Indexed(t, idx, hash) && n <= |t| && forall f | 0 <= f < n && f != i :: t[f].Ele?
    ensures KeysIn(t, n) <= idx.Keys && n <= |KeysIn(t, n)| + if i < n then 1 else 0
    decreases n
  {
    hide Indexed, KeysIn;
    if n == 0 {
      assert KeysIn(t, 0) == {} by { KeysNone(t); }
    } else {
      KeysCount(t, idx, hash, n - 1, i);
      if t[n - 1].Ele? { NewKey(t, idx, hash, n - 1, n - 1); }
      KeysStep(t, n);
    }
  }

  lemma KeysNone(t: seq<Ele>)
    ensures KeysIn(t, 0) == {}
  {
  }

  lemma KeysStep(t: seq<Ele>, n: nat)
    requires 0 < n <= |t|
    ensures KeysIn(t, n) == KeysIn(t, n - 1) + if t[n - 1].Ele? then {t[n - 1].key} else {}
    ensures t[n - 1].Ele? && t[n - 1].key !in KeysIn(t, n - 1) ==> |KeysIn(t, n)| == |KeysIn(t, n - 1)| + 1
  {
  }

  lemma {:induction false} NewKey(t: seq<Ele>, idx: map<Key, nat>, hash: Key -> nat, n: nat, m: nat)
    requires Indexed(t, idx, hash) && m <= n < |t| && t[n].Ele?
    ensures t[n].key !in KeysIn(t, m) && t[n].key in idx
  {
    if m > 0 { NewKey(t, idx, hash, n, m - 1); }
  }

  /** Fewer keys than slots, less the one being taken, leaves a free slot. */
  lemma StillRoom(t: seq<Ele>, idx: map<Key, nat>, hash: Key -> nat, i: nat, x: Ele)
    requires Indexed(t, idx, hash) && |idx| + 1 < |t| && i < |t| && t[i].Empty?
    ensures HasRoom(t[i := x])
  {
    if forall f | 0 <= f < |t| && f != i :: t[f].Ele? {
      KeysCount(t, idx, hash, |t|, i);
      SubsetSize(KeysIn(t, |t|), idx.Keys);
      assert false;
    }
    var f :| 0 <= f < |t| && f != i && t[f].Empty?;
    assert t[i := x][f].Empty?;
  }

  // ----- removal --------------------------------------------------------------------------------------

  /** Slots and rows point at each other because keys and lines do. */
  lemma RepLinked(t: seq<Ele>, rows: seq<Row>, idx: map<Key, nat>, hash: Key -> nat, recs: map<Key, Rec>, c: Cache)
    requires RepTable(t, idx, hash, recs, c.at) && RepRows(rows, idx, c.lines) && PtrOk(c)
    ensures Linked(t, rows)
  {
    forall i | 0 <= i < |t| && t[i].Ele? && t[i].line.Some?
      ensures t[i].line.value < |rows| && rows[t[i].line.value].ele == Some(i)
    {
      var k := t[i].key;
      assert t[idx[k]] == EleOf(hash, k, recs[k], c.at);
      assert RowOf(rows[c.at[k]], idx, c.lines[c.at[k]]);
    }
    forall l | 0 <= l < |rows| && rows[l].ele.Some?
      ensures rows[l].ele.value < |t| && t[rows[l].ele.value].Ele? && t[rows[l].ele.value].line == Some(l)
    {
      assert RowOf(rows[l], idx, c.lines[l]);
      var k := c.lines[l].key.value;
      assert t[idx[k]] == EleOf(hash, k, recs[k], c.at);
    }
  }

  /** Emptying an uncached slot leaves the rest linked. */
  lemma UnlinkedSlot(t: seq<Ele>, rows: seq<Row>, i: nat)
    requires Linked(t, rows) && i < |t| && t[i].Ele? && t[i].line.None?
    ensures Linked(t[i := Empty], rows)
  {
  }

  /** What Remove did, read back as the records without k. */
  lemma Removed(t0: seq<Ele>, idx: map<Key, nat>, t: seq<Ele>, idx': map<Key, nat>, hash: Key -> nat,
                rows0: seq<Row>, rows: seq<Row>, recs: map<Key, Rec>, c: Cache, k: Key)
    requires RepTable(t0, idx, hash, recs, c.at) && RepRows(rows0, idx, c.lines) && PtrOk(c) && k in idx && k !in c.at
    requires TableOk(t, idx', hash) && idx'.Keys == idx.Keys - {k} && Survive(t0, idx, t, idx')
    requires Linked(t, rows) && SameRows(rows0, rows)
    ensures RepTable(t, idx', hash, recs - {k}, c.at) && RepRows(rows, idx', c.lines)
  {
    forall l | 0 <= l < |rows|
      ensures RowOf(rows[l], idx', c.lines[l])
    {
      assert RowOf(rows0[l], idx, c.lines[l]);
      RemovedRow(t0, idx, t, idx', hash, rows0, rows, recs, c, l);
    }
  }

  lemma RemovedRow(t0: seq<Ele>, idx: map<Key, nat>, t: seq<Ele>, idx': map<Key, nat>, hash: Key -> nat,
                   rows0: seq<Row>, rows: seq<Row>, recs: map<Key, Rec>, c: Cache, l: nat)
    requires RepTable(t0, idx, hash, recs, c.at) && PtrOk(c) && l < |rows| == |rows0| == |c.lines|
    requires idx'.Keys <= idx.Keys && (forall j | j in c.at && j in idx :: j in idx')
    requires TableOk(t, idx', hash) && Survive(t0, idx, t, idx') && Linked(t, rows) && SameRows(rows0, rows)
    requires RowOf(rows0[l], idx, c.lines[l])
    ensures RowOf(rows[l], idx', c.lines[l])
  {
    if rows[l].ele.Some? { SlotMeansKey(t0, idx, t, idx', hash, rows, recs, c, l); }
    if c.lines[l].key.Some? {
      var j := c.lines[l].key.value;
      assert t[idx'[j]] == t0[idx[j]] == EleOf(hash, j, recs[j], c.at);
    }
  }

  lemma SlotMeansKey(t0: seq<Ele>, idx: map<Key, nat>, t: seq<Ele>, idx': map<Key, nat>, hash: Key -> nat,
                     rows: seq<Row>, recs: map<Key, Rec>, c: Cache, l: nat)
    requires RepTable(t0, idx, hash, recs, c.at) && PtrOk(c) && l < |rows| == |c.lines| && idx'.Keys <= idx.Keys
    requires TableOk(t, idx', hash) && Survive(t0, idx, t, idx') && Linked(t, rows) && rows[l].ele.Some?
    ensures c.lines[l].key.Some?
  {
    var j := t[rows[l].ele.value].key;
    assert t[idx'[j]] == t0[idx[j]] == EleOf(hash, j, recs[j], c.at);
    assert c.at[j] == l;
  }

  // ----- the cache steps --------------------------------------------------------------------------------

  function Freed(objs: map<nat, Obj>, obj: Option<nat>): map<nat, Obj> {
    match obj
    case Some(a) => objs - {a}
    case None => objs
  }

  function Unlink(t: seq<Ele>, slot: Option<nat>): seq<Ele> {
    match slot
    case Some(i) => if i < |t| && t[i].Ele? then t[i := t[i].(line := None)] else t
    case None => t
  }

  lemma DropRep(t: seq<Ele>, rows: seq<Row>, objs: map<nat, Obj>, idx: map<Key, nat>, hash: Key -> nat,
          recs: map<Key, Rec>, c: Cache, l: nat)
    requires Rep(t, rows, objs, idx, hash, recs, c) && PtrOk(c) && AddrOk(c) && l < |c.lines|
    ensures rows[l].ele.Some? ==> rows[l].ele.value < |t| && t[rows[l].ele.value].Ele?
    ensures Rep(Unlink(t, rows[l].ele), rows[l := Row(None, None, Bump(rows[l].ver), 0)], Freed(objs, rows[l].obj),
        idx, hash, recs, Drop(c, l))
  {
    hide RepTable, RepObjs, Bump, PtrOk, AddrOk;
    var x := Line(None, None, Bump(c.lines[l].ver), 0);
    assert RowOf(rows[l], idx, c.lines[l]);
    ObjsDrop(objs, c, l, x);
    assert objs - {} == objs;
    RowsPut(rows, idx, c.lines, l, Row(None, None, Bump(rows[l].ver), 0), x);
    if c.lines[l].key.Some? {
      var k := c.lines[l].key.value;
      TableKnown(t, idx, hash, recs, c.at, k);
      TableLine(t, idx, hash, recs, c.at, k, c.at - {k});
    }
  }

  lemma TableKnown(t: seq<Ele>, idx: map<Key, nat>, hash: Key -> nat, recs: map<Key, Rec>, at: map<Key, nat>, k: Key)
    requires RepTable(t, idx, hash, recs, at) && k in idx
    ensures k in recs && idx[k] < |t| && t[idx[k]] == EleOf(hash, k, recs[k], at)
  {
  }

  lemma InstallRep(t: seq<Ele>, rows: seq<Row>, objs: map<nat, Obj>, idx: map<Key, nat>, hash: Key -> nat,
          recs: map<Key, Rec>, c: Cache, l: nat, key: Key, b: Buf, ref: int)
    requires Rep(t, rows, objs, idx, hash, recs, c) && AddrOk(c) && l < |c.lines|
    requires c.lines[l].buf.None? && key in recs && key !in c.at && b.addr !in objs
    ensures key in idx && idx[key] < |t| && t[idx[key]].Ele?
    ensures Rep(t[idx[key] := t[idx[key]].(line := Some(l))],
                rows[l := Row(Some(b.addr), Some(idx[key]), Bump(rows[l].ver), ref)],
                objs[b.addr := ObjOf(b, l)], idx, hash, recs, Install(c, l, key, b, ref))
  {
    assert key in idx;
    AddrFresh(objs, c, b.addr);
    hide RepTable, RepObjs, Bump, AddrOk;
    var x := Line(Some(key), Some(b), Bump(c.lines[l].ver), ref);
    assert RowOf(rows[l], idx, c.lines[l]);
    ObjsPut(objs, c, l, x);
    assert objs - {} == objs;
    RowsPut(rows, idx, c.lines, l, Row(Some(b.addr), Some(idx[key]), Bump(rows[l].ver), ref), x);
    TableKnown(t, idx, hash, recs, c.at, key);
    TableLine(t, idx, hash, recs, c.at, key, c.at[key := l]);
  }

  lemma AddrFresh(objs: map<nat, Obj>, c: Cache, addr: nat)
    requires RepObjs(objs, c.lines) && addr !in objs
    ensures FreshAddr(c, addr)
  {
  }

  /** Rewriting a keyed line's control word and buffer. */
  lemma SetRep(t: seq<Ele>, rows: seq<Row>, objs: map<nat, Obj>, idx: map<Key, nat>, hash: Key -> nat,
          recs: map<Key, Rec>, c: Cache, l: nat, x: Line)
    requires Rep(t, rows, objs, idx, hash, recs, c) && AddrOk(c) && l < |c.lines|
    requires x.key == c.lines[l].key && x.buf.Some? && c.lines[l].buf.Some?
    requires x.buf.value.addr !in objs || x.buf.value.addr == c.lines[l].buf.value.addr
    ensures rows[l].obj == Some(c.lines[l].buf.value.addr)
    ensures Rep(t, rows[l := Row(Some(x.buf.value.addr), rows[l].ele, x.ver, x.ref)],
                Freed(objs, rows[l].obj)[x.buf.value.addr := ObjOf(x.buf.value, l)], idx, hash, recs, Put(c, l, x))
  {
    if x.buf.value.addr !in objs { AddrFresh(objs, c, x.buf.value.addr); }
    hide RepTable, RepObjs, AddrOk;
    assert RowOf(rows[l], idx, c.lines[l]);
    ObjsPut(objs, c, l, x);
    RowsPut(rows, idx, c.lines, l, Row(Some(x.buf.value.addr), rows[l].ele, x.ver, x.ref), x);
  }

  /** Rewriting a line's control word only. */
  lemma CtlRep(t: seq<Ele>, rows: seq<Row>, objs: map<nat, Obj>, idx: map<Key, nat>, hash: Key -> nat,
          recs: map<Key, Rec>, c: Cache, l: nat, ver: nat, ref: int)
    requires Rep(t, rows, objs, idx, hash, recs, c) && l < |c.lines|
    ensures Rep(t, rows[l := rows[l].(ver := ver, ref := ref)], objs, idx, hash, recs,
        Put(c, l, c.lines[l].(ver := ver, ref := ref)))
  {
    hide RepTable, RepObjs;
    assert RowOf(rows[l], idx, c.lines[l]);
    ObjsSame(objs, c, l, c.lines[l].(ver := ver, ref := ref));
    RowsPut(rows, idx, c.lines, l, rows[l].(ver := ver, ref := ref), c.lines[l].(ver := ver, ref := ref));
  }
}
