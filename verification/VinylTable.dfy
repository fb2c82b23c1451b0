/** The meta: an open-addressed hash table searched by linear probing, with removal
    by shifting displaced elements back. */
module VinylTable {
  import opened Basics
  import opened VinylTypes

  /** A slot of the meta. */
  datatype Ele = Empty | Ele(memo: nat, key: Key, rec: Rec, line: Option<nat>)

  /** The fields of a cache line that C keeps in the line array. */
  datatype Row = Row(obj: Option<nat>, ele: Option<nat>, ver: nat, ref: int)

  // ----- cyclic positions -----------------------------------------------------------------

  function Next(i: nat, n: nat): nat {
    if i + 1 >= n then 0 else i + 1
  }

  /** Steps from a forward to b, around the end. */
  function Gap(a: nat, b: nat, n: nat): int {
    if a <= b then b - a else b + n - a
  }

  /** j is probed before i by a search that starts at h. */
  predicate Before(h: nat, j: nat, i: nat, n: nat) {
    Gap(h, j, n) < Gap(h, i, n)
  }

  /** The slot a search starts from. The table size is a power of two in the source,
      where this is a mask; any size will do here. */
  function Home(memo: nat, n: nat): (h: nat)
    requires n > 0
    ensures h < n
  {
    memo % n
  }

  // ----- well-formed tables ------------------------------------------------------------------

  /** Every slot a search for element i passes on its way is occupied. */
  ghost predicate Reachable(t: seq<Ele>, i: nat)
    requires i < |t|
  {
    t[i].Ele? ==> forall j | 0 <= j < |t| && Before(Home(t[i].memo, |t|), j, i, |t|) :: t[j].Ele?
  }

  ghost predicate HasRoom(t: seq<Ele>) {
    exists f :: 0 <= f < |t| && t[f].Empty?
  }

  /** idx tells where each key is. */
  ghost predicate Indexed(t: seq<Ele>, idx: map<Key, nat>, hash: Key -> nat) {
    && (forall k | k in idx :: idx[k] < |t| && t[idx[k]].Ele? && t[idx[k]].key == k)
    && (forall i | 0 <= i < |t| && t[i].Ele? :: t[i].key in idx && idx[t[i].key] == i && t[i].memo == hash(t[i].key))
  }

  ghost predicate TableOk(t: seq<Ele>, idx: map<Key, nat>, hash: Key -> nat) {
    Indexed(t, idx, hash) && HasRoom(t) && forall i | 0 <= i < |t| :: Reachable(t, i)
  }

  /** Lines and occupied slots point at each other. */
  ghost predicate Linked(t: seq<Ele>, rows: seq<Row>) {
    && (forall i | 0 <= i < |t| && t[i].Ele? && t[i].line.Some? ::
          t[i].line.value < |rows| && rows[t[i].line.value].ele == Some(i))
    && (forall l | 0 <= l < |rows| && rows[l].ele.Some? ::
          rows[l].ele.value < |t| && t[rows[l].ele.value].Ele? && t[rows[l].ele.value].line == Some(l))
  }

  // ----- query ------------------------------------------------------------------------------------

  /** An insertion at i keeps the table searchable. */
  ghost predicate Insertable(t: seq<Ele>, memo: nat, i: nat) {
    && i < |t| && t[i].Empty?
    && forall j | 0 <= j < |t| && Before(Home(memo, |t|), j, i, |t|) :: t[j].Ele?
  }

  /** Finds a key's slot, or the slot where it would go. */
  method Query(ele: array<Ele>, key: Key, memo: nat, ghost idx: map<Key, nat>, ghost hash: Key -> nat)
    returns (found: bool, i: nat)
    requires TableOk(ele[..], idx, hash) && memo == hash(key)
    ensures found <==> key in idx
    ensures found ==> i == idx[key] < ele.Length && ele[i].Ele? && ele[i].key == key
    ensures !found ==> Insertable(ele[..], memo, i)
  {
    var n := ele.Length;
    ghost var room :| 0 <= room < n && ele[..][room].Empty?;
    i := Home(memo, n);
    ghost var h := i;
    var rem := n;
    while rem > 0
      invariant 0 <= rem <= n && i < n && (rem > 0 ==> Gap(h, i, n) == n - rem)
      invariant forall j | 0 <= j < n && Gap(h, j, n) < n - rem :: ele[j].Ele? && ele[j].key != key
    {
      if ele[i].Empty? {
        if key in idx {
          assert Reachable(ele[..], idx[key]);
          assert Before(h, i, idx[key], n);
          assert false;
        }
        return false, i;
      }
      if ele[i].memo == memo && ele[i].key == key {
        return true, i;
      }
      i := Next(i, n);
      rem := rem - 1;
    }
    assert false;
  }

  /** Occupying an insertable slot. */
  lemma InsertOk(t: seq<Ele>, idx: map<Key, nat>, hash: Key -> nat, i: nat, x: Ele)
    requires TableOk(t, idx, hash) && x.Ele? && x.key !in idx && x.memo == hash(x.key) && Insertable(t, x.memo, i)
    requires HasRoom(t[i := x])
    ensures TableOk(t[i := x], idx[x.key := i], hash)
  {
    var t' := t[i := x];
    forall k | 0 <= k < |t|
      ensures Reachable(t', k)
    {
      assert Reachable(t, k);
    }
  }

  /** Rewriting a slot without changing its key. */
  lemma UpdateOk(t: seq<Ele>, idx: map<Key, nat>, hash: Key -> nat, i: nat, x: Ele)
    requires TableOk(t, idx, hash) && i < |t| && t[i].Ele? && x.Ele? && x.key == t[i].key && x.memo == t[i].memo
    ensures TableOk(t[i := x], idx, hash)
  {
    var t' := t[i := x];
    forall k | 0 <= k < |t|
      ensures Reachable(t', k)
    {
      assert Reachable(t, k);
    }
    var f :| 0 <= f < |t| && t[f].Empty?;
    assert t'[f].Empty?;
  }

  // ----- remove ----------------------------------------------------------------------------------

  /** Element i can be found in spite of the hole. */
  ghost predicate ReachableBut(t: seq<Ele>, i: nat, hole: nat, pending: bool)
    requires i < |t|
  {
    t[i].Ele? ==> forall j | 0 <= j < |t| && Before(Home(t[i].memo, |t|), j, i, |t|) ::
        t[j].Ele? || (pending && j == hole)
  }

  /** Loop state of a removal. Positions are counted from the free slot f that ends the
      occupied range: slots up to cur are repaired, those behind it may still be cut off
      by the hole. */
  ghost predicate Shifting(t: seq<Ele>, f: nat, hole: nat, cur: nat) {
    && f < |t| && hole < |t| && cur < |t| && hole != f && cur != f
    && t[f].Empty? && t[hole].Empty?
    && Gap(f, hole, |t|) <= Gap(f, cur, |t|)
    && (forall j | 0 <= j < |t| && Gap(f, j, |t|) > Gap(f, hole, |t|) :: t[j].Ele?)
    && (forall i | 0 <= i < |t| :: ReachableBut(t, i, hole, Gap(f, i, |t|) > Gap(f, cur, |t|)))
  }

  /** The test in the source for leaving an element where it is. */
  predicate Stays(hole: nat, start: nat, cur: nat) {
    (hole < start && start <= cur) || (hole > cur && (hole < start || start <= cur))
  }

  lemma StaysMeans(hole: nat, start: nat, cur: nat, n: nat)
    requires hole < n && start < n && cur < n && hole != cur
    ensures Stays(hole, start, cur) <==> !Before(start, hole, cur, n)
  {
  }

  lemma KeepStep(t: seq<Ele>, f: nat, hole: nat, cur: nat)
    requires Shifting(t, f, hole, cur) && Next(cur, |t|) != f && t[Next(cur, |t|)].Ele?
    requires Stays(hole, Home(t[Next(cur, |t|)].memo, |t|), Next(cur, |t|))
    ensures Shifting(t, f, hole, Next(cur, |t|))
  {
    var c := Next(cur, |t|);
    StaysMeans(hole, Home(t[c].memo, |t|), c, |t|);
    forall i | 0 <= i < |t|
      ensures ReachableBut(t, i, hole, Gap(f, i, |t|) > Gap(f, c, |t|))
    {
      assert ReachableBut(t, i, hole, Gap(f, i, |t|) > Gap(f, cur, |t|));
    }
  }

  lemma MoveStep(t: seq<Ele>, f: nat, hole: nat, cur: nat)
    requires Shifting(t, f, hole, cur) && Next(cur, |t|) != f && t[Next(cur, |t|)].Ele?
    requires !Stays(hole, Home(t[Next(cur, |t|)].memo, |t|), Next(cur, |t|))
    ensures var c := Next(cur, |t|); Shifting(t[hole := t[c]][c := Empty], f, c, c)
  {
    var n := |t|;
    var c := Next(cur, n);
    var t' := t[hole := t[c]][c := Empty];
    StaysMeans(hole, Home(t[c].memo, n), c, n);
    forall i | 0 <= i < n
      ensures ReachableBut(t', i, c, Gap(f, i, n) > Gap(f, c, n))
    {
      if t'[i].Ele? {
        if i == hole {
          assert ReachableBut(t, c, hole, true);
          NearerPath(t, t', c, hole);
        } else {
          assert ReachableBut(t, i, hole, Gap(f, i, n) > Gap(f, cur, n));
          OtherPath(t, t', f, hole, cur, i);
        }
      }
    }
  }

  lemma NearerPath(t: seq<Ele>, t': seq<Ele>, c: nat, hole: nat)
    requires c < |t| && hole < |t| && hole != c && t[c].Ele? && t' == t[hole := t[c]][c := Empty]
    requires ReachableBut(t, c, hole, true) && Before(Home(t[c].memo, |t|), hole, c, |t|)
    ensures ReachableBut(t', hole, c, false)
  {
  }

  /** A search that passes c on its way to an earlier slot also passes the free slot. */
  lemma CrossesEnd(h: nat, f: nat, c: nat, i: nat, n: nat)
    requires h < n && f < n && c < n && i < n && i != f
    ensures Gap(f, i, n) < Gap(f, c, n) && Before(h, c, i, n) ==> Before(h, f, i, n)
  {
  }

  lemma OtherPath(t: seq<Ele>, t': seq<Ele>, f: nat, hole: nat, cur: nat, i: nat)
    requires Shifting(t, f, hole, cur) && Next(cur, |t|) != f && t[Next(cur, |t|)].Ele?
    requires t' == t[hole := t[Next(cur, |t|)]][Next(cur, |t|) := Empty]
    requires i < |t| && i != hole && i != Next(cur, |t|) && t[i].Ele?
    requires ReachableBut(t, i, hole, Gap(f, i, |t|) > Gap(f, cur, |t|))
    ensures ReachableBut(t', i, Next(cur, |t|), Gap(f, i, |t|) > Gap(f, Next(cur, |t|), |t|))
  {
    var n := |t|;
    var c := Next(cur, n);
    var h := Home(t[i].memo, n);
    CrossesEnd(h, f, c, i, n);
  }

  /** idx follows an element from c to the hole. */
  lemma IndexedMove(t: seq<Ele>, idx: map<Key, nat>, hash: Key -> nat, hole: nat, c: nat)
    requires Indexed(t, idx, hash) && hole < |t| && c < |t| && hole != c && t[hole].Empty? && t[c].Ele?
    ensures Indexed(t[hole := t[c]][c := Empty], idx[t[c].key := hole], hash)
  {
  }

  lemma IndexedRemove(t: seq<Ele>, idx: map<Key, nat>, hash: Key -> nat, i: nat)
    requires Indexed(t, idx, hash) && i < |t| && t[i].Ele?
    ensures Indexed(t[i := Empty], idx - {t[i].key}, hash)
  {
  }

  /** Every element indexed by idx' is what idx had for that key in t0. */
  ghost predicate Survive(t0: seq<Ele>, idx: map<Key, nat>, t: seq<Ele>, idx': map<Key, nat>) {
    forall k | k in idx' :: k in idx && idx[k] < |t0| && idx'[k] < |t| && t[idx'[k]] == t0[idx[k]]
  }

  /** Rows differ only in the slot they point at. */
  ghost predicate SameRows(a: seq<Row>, b: seq<Row>) {
    |a| == |b| && forall l | 0 <= l < |a| :: b[l] == a[l].(ele := b[l].ele)
  }

  function Relink(rows: seq<Row>, line: Option<nat>, hole: nat): seq<Row> {
    match line
    case Some(l) => if l < |rows| then rows[l := rows[l].(ele := Some(hole))] else rows
    case None => rows
  }

  /** Relocating one element and repairing its line. */
  lemma RelocateOk(t0: seq<Ele>, idx: map<Key, nat>, t: seq<Ele>, idx': map<Key, nat>, hash: Key -> nat,
          rows: seq<Row>, hole: nat, c: nat)
    requires Indexed(t, idx', hash) && Survive(t0, idx, t, idx') && Linked(t, rows)
    requires hole < |t| && c < |t| && hole != c && t[hole].Empty? && t[c].Ele?
    ensures t[c].line.Some? ==> t[c].line.value < |rows|
    ensures var t' := t[hole := t[c]][c := Empty]; var i' := idx'[t[c].key := hole];
      var rows' := Relink(rows, t[c].line, hole);
      && Indexed(t', i', hash) && Survive(t0, idx, t', i') && Linked(t', rows')
      && SameRows(rows, rows') && i'.Keys == idx'.Keys
  {
    hide Indexed, Survive, Linked;
    IndexedMove(t, idx', hash, hole, c);
    SlotIndexed(t, idx', hash, c);
    SurviveMove(t0, idx, t, idx', hash, hole, c);
    LinkedMove(t, rows, hole, c);
  }

  lemma SurviveMove(t0: seq<Ele>, idx: map<Key, nat>, t: seq<Ele>, idx': map<Key, nat>, hash: Key -> nat, hole: nat,
          c: nat)
    requires Indexed(t, idx', hash) && Survive(t0, idx, t, idx')
    requires hole < |t| && c < |t| && hole != c && t[hole].Empty? && t[c].Ele?
    ensures Survive(t0, idx, t[hole := t[c]][c := Empty], idx'[t[c].key := hole])
  {
  }

  lemma LinkedMove(t: seq<Ele>, rows: seq<Row>, hole: nat, c: nat)
    requires Linked(t, rows) && hole < |t| && c < |t| && hole != c && t[hole].Empty? && t[c].Ele?
    ensures t[c].line.Some? ==> t[c].line.value < |rows|
    ensures Linked(t[hole := t[c]][c := Empty], Relink(rows, t[c].line, hole))
  {
  }

  lemma SurviveRemove(t: seq<Ele>, idx: map<Key, nat>, hash: Key -> nat, i: nat)
    requires Indexed(t, idx, hash) && i < |t| && t[i].Ele?
    ensures Survive(t, idx, t[i := Empty], idx - {t[i].key})
  {
  }

  /** The free slot that ends the occupied range starting at i0. */
  method RangeEnd(ele: array<Ele>, i0: nat) returns (f: nat, contig: nat)
    requires HasRoom(ele[..]) && i0 < ele.Length && ele[i0].Ele?
    ensures f < ele.Length && f != i0 && ele[f].Empty? && contig == Gap(i0, f, ele.Length)
    ensures forall j | 0 <= j < ele.Length && Gap(i0, j, ele.Length) < contig :: ele[j].Ele?
  {
    var n := ele.Length;
    ghost var room :| 0 <= room < n && ele[..][room].Empty?;
    contig := 1;
    f := Next(i0, n);
    while contig < n && !ele[f].Empty?
      invariant 1 <= contig <= n && f < n && (contig < n ==> Gap(i0, f, n) == contig)
      invariant forall j | 0 <= j < n && Gap(i0, j, n) < contig :: ele[j].Ele?
    {
      f := Next(f, n);
      contig := contig + 1;
    }
    assert contig < n by { assert ele[room].Empty?; }
  }

  /** Removes the element at slot i0. Every other element survives unchanged, perhaps at
      another slot, and the lines of relocated elements are repaired. The element's own
      line, if it had one, has let go of it already. */
  method Remove(ele: array<Ele>, row: array<Row>, i0: nat, ghost idx: map<Key, nat>, ghost hash: Key -> nat)
    returns (ghost idx': map<Key, nat>)
    requires TableOk(ele[..], idx, hash) && i0 < ele.Length && ele[i0].Ele?
    requires Linked(ele[..][i0 := Empty], row[..])
    modifies ele, row
    ensures TableOk(ele[..], idx', hash) && idx'.Keys == idx.Keys - {old(ele[i0].key)}
    ensures Survive(old(ele[..]), idx, ele[..], idx')
    ensures Linked(ele[..], row[..]) && SameRows(old(row[..]), row[..])
  {
    hide Linked, Survive, SameRows, Shifting, Indexed, Reachable, HasRoom, Home;
    var n := ele.Length;
    ghost var t0, r0 := ele[..], row[..];
    var f, contig := RangeEnd(ele, i0);
    IndexedRemove(t0, idx, hash, i0);
    SurviveRemove(t0, idx, hash, i0);
    StartShift(t0, i0, f);
    idx' := idx - {ele[i0].key};
    SlotIndexed(t0, idx, hash, i0);
    ele[i0] := Empty;
    assert ele[..] == t0[i0 := Empty];
    SameRowsSelf(r0);
    var hole, cur := i0, i0;
    var rem := contig - 1;
    while rem > 0
      invariant 0 <= rem && cur < n && hole < n && Gap(cur, f, n) == rem + 1
      invariant Shifting(ele[..], f, hole, cur) && Indexed(ele[..], idx', hash) && Survive(t0, idx, ele[..], idx')
      invariant idx'.Keys == idx.Keys - {t0[i0].key}
      invariant Linked(ele[..], row[..]) && SameRows(r0, row[..])
    {
      ghost var t, rows := ele[..], row[..];
      var c := Next(cur, n);
      ShiftingKnown(t, f, hole, cur);
      var start := Home(ele[c].memo, n);
      if !Stays(hole, start, c) {
        MoveStep(t, f, hole, cur);
        RelocateOk(t0, idx, t, idx', hash, rows, hole, c);
        idx' := idx'[ele[c].key := hole];
        if ele[c].line.Some? {
          row[ele[c].line.value] := row[ele[c].line.value].(ele := Some(hole));
        }
        assert row[..] == Relink(rows, t[c].line, hole);
        SameRowsOn(r0, rows, row[..]);
        ele[hole] := ele[c];
        ele[c] := Empty;
        assert ele[..] == t[hole := t[c]][c := Empty];
        hole := c;
      } else {
        KeepStep(t, f, hole, cur);
      }
      cur := c;
      rem := rem - 1;
    }
    EndShift(ele[..], f, hole, cur);
  }

  lemma SlotIndexed(t: seq<Ele>, idx: map<Key, nat>, hash: Key -> nat, i: nat)
    requires Indexed(t, idx, hash) && i < |t| && t[i].Ele?
    ensures t[i].key in idx
  {
  }

  lemma SameRowsSelf(a: seq<Row>)
    ensures SameRows(a, a)
  {
  }

  lemma SameRowsOn(a: seq<Row>, b: seq<Row>, c: seq<Row>)
    requires SameRows(a, b) && SameRows(b, c)
    ensures SameRows(a, c)
  {
  }

  lemma ShiftingKnown(t: seq<Ele>, f: nat, hole: nat, cur: nat)
    requires Shifting(t, f, hole, cur) && Gap(cur, f, |t|) > 1
    ensures var c := Next(cur, |t|); c < |t| && c != f && c != hole && t[c].Ele? && t[hole].Empty?
  {
  }

  lemma StartShift(t: seq<Ele>, i0: nat, f: nat)
    requires i0 < |t| && f < |t| && f != i0 && t[f].Empty? && forall i | 0 <= i < |t| :: Reachable(t, i)
    requires forall j | 0 <= j < |t| && Gap(i0, j, |t|) < Gap(i0, f, |t|) :: t[j].Ele?
    ensures Shifting(t[i0 := Empty], f, i0, i0)
  {
    var n := |t|;
    var t' := t[i0 := Empty];
    forall i | 0 <= i < n
      ensures ReachableBut(t', i, i0, Gap(f, i, n) > Gap(f, i0, n))
    {
      assert Reachable(t, i);
      if t'[i].Ele? { CrossesEnd(Home(t[i].memo, n), f, i0, i, n); }
    }
  }

  lemma EndShift(t: seq<Ele>, f: nat, hole: nat, cur: nat)
    requires Shifting(t, f, hole, cur) && Gap(cur, f, |t|) == 1
    ensures HasRoom(t) && forall i | 0 <= i < |t| :: Reachable(t, i)
  {
    forall i | 0 <= i < |t|
      ensures Reachable(t, i)
    {
      assert ReachableBut(t, i, hole, Gap(f, i, |t|) > Gap(f, cur, |t|));
    }
  }
}
