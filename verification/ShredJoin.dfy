/** The join of data shreds with rooted slots, one shred per call, over two ordered
    iterators. */
module ShredJoin {
  import opened Basics

  const UINT64_MAX: nat := 0xFFFF_FFFF_FFFF_FFFF

  type Bytes = seq<int>
  datatype Shred = Shred(slot: nat, value: Bytes)

  /** A column family: keys in order. Several shreds share a slot, roots do not. */
  predicate Sorted(shreds: seq<Shred>) {
    forall i, j | 0 <= i < j < |shreds| :: shreds[i].slot <= shreds[j].slot
  }

  predicate Rooted(roots: seq<nat>) {
    && (forall i, j | 0 <= i < j < |roots| :: roots[i] < roots[j])
    && (forall i | 0 <= i < |roots| :: roots[i] <= UINT64_MAX)
  }

  /** The shreds from position d on whose slot is rooted, in order. */
  function Join(shreds: seq<Shred>, d: nat, roots: seq<nat>): seq<Shred>
    requires d <= |shreds|
    decreases |shreds| - d
  {
    if d == |shreds| then []
    else (if shreds[d].slot in roots then [shreds[d]] else []) + Join(shreds, d + 1, roots)
  }

  function Truncate(value: Bytes, bufSz: nat): Bytes {
    if |value| <= bufSz then value else value[..bufSz]
  }

  /** Skipping shreds of slots without a root skips nothing of the join. */
  lemma {:induction false} JoinSkips(shreds: seq<Shred>, d: nat, e: nat, roots: seq<nat>)
    requires d <= e <= |shreds| && forall i | d <= i < e :: shreds[i].slot !in roots
    ensures Join(shreds, d, roots) == Join(shreds, e, roots)
    decreases e - d
  {
    if d < e { JoinSkips(shreds, d + 1, e, roots); }
  }

  /** First position whose slot is at least s. */
  method Seek(shreds: seq<Shred>, s: nat) returns (d: nat)
    requires Sorted(shreds)
    ensures d <= |shreds| && (forall i | 0 <= i < d :: shreds[i].slot < s) && (d < |shreds| ==> s <= shreds[d].slot)
  {
    d := 0;
    while d < |shreds| && shreds[d].slot < s
      invariant 0 <= d <= |shreds| && forall i | 0 <= i < d :: shreds[i].slot < s
    {
      d := d + 1;
    }
  }

  method SeekRoot(roots: seq<nat>, s: nat) returns (r: nat)
    requires Rooted(roots)
    ensures r <= |roots| && (forall i | 0 <= i < r :: roots[i] < s) && (r < |roots| ==> s <= roots[r])
  {
    r := 0;
    while r < |roots| && roots[r] < s
      invariant 0 <= r <= |roots| && forall i | 0 <= i < r :: roots[i] < s
    {
      r := r + 1;
    }
  }

  /** Iterator positions, the slot being served and the done flags. */
  datatype Cursor = Cursor(data: nat, root: nat, slot: nat, slotDone: bool, iterDone: bool)

  ghost predicate Columns(shreds: seq<Shred>, roots: seq<nat>) {
    Sorted(shreds) && Rooted(roots) && forall i | 0 <= i < |shreds| :: shreds[i].slot <= UINT64_MAX
  }

  /** Every root before the root iterator is behind every shred still to come; the current
      slot is the root under the iterator; a finished slot or iterator has no shred left. A
      current slot of UINT64_MAX means there is none, or is that very root. */
  ghost predicate Tracks(shreds: seq<Shred>, roots: seq<nat>, c: Cursor) {
    && Columns(shreds, roots) && c.data <= |shreds| && c.root <= |roots|
    && (forall i, j | 0 <= i < c.root && c.data <= j < |shreds| :: roots[i] < shreds[j].slot)
    && (c.slot != UINT64_MAX ==> c.root < |roots| && c.slot == roots[c.root])
    && (c.slotDone ==> c.root < |roots| && forall j | c.data <= j < |shreds| :: roots[c.root] < shreds[j].slot)
    && (c.iterDone ==> (c.slotDone && c.data == |shreds|) || c.root == |roots|)
    && (c.slotDone && !c.iterDone ==> c.slot != UINT64_MAX)
  }

  lemma AfterRoots(shreds: seq<Shred>, roots: seq<nat>, c: Cursor)
    requires Tracks(shreds, roots, c) && c.root == |roots|
    ensures Tracks(shreds, roots, c.(iterDone := true)) && Join(shreds, c.data, roots) == []
  {
    NoRootLeft(shreds, c.data, roots);
  }

  lemma TakeRoot(shreds: seq<Shred>, roots: seq<nat>, c: Cursor)
    requires Tracks(shreds, roots, c) && c.root < |roots| && c.slot == UINT64_MAX
    ensures Tracks(shreds, roots, c.(slot := roots[c.root]))
  {
  }

  lemma DataEnds(shreds: seq<Shred>, roots: seq<nat>, c: Cursor)
    requires Tracks(shreds, roots, c) && c.root < |roots| && c.data == |shreds|
    ensures Tracks(shreds, roots, c.(slotDone := true, iterDone := true)) && Join(shreds, c.data, roots) == []
  {
  }

  lemma SlotEnds(shreds: seq<Shred>, roots: seq<nat>, c: Cursor)
    requires Tracks(shreds, roots, c) && c.root < |roots| && c.slot == roots[c.root] && c.data < |shreds|
    requires shreds[c.data].slot > c.slot
    ensures Tracks(shreds, roots, c.(slotDone := true))
  {
  }

  lemma SeekData(shreds: seq<Shred>, roots: seq<nat>, c: Cursor, d: nat)
    requires Tracks(shreds, roots, c) && !c.slotDone && c.root < |roots| && c.slot == roots[c.root]
    requires c.data < |shreds| && shreds[c.data].slot < c.slot
    requires d <= |shreds| && (forall i | 0 <= i < d :: shreds[i].slot < c.slot)
    requires d < |shreds| ==> c.slot <= shreds[d].slot
    ensures c.data < d && Tracks(shreds, roots, c.(data := d)) && Join(shreds, c.data, roots) == Join(shreds, d, roots)
  {
    SkipBehind(shreds, c.data, d, roots, c.root);
  }

  lemma TakeShred(shreds: seq<Shred>, roots: seq<nat>, c: Cursor)
    requires Tracks(shreds, roots, c) && !c.slotDone && c.root < |roots| && c.slot == roots[c.root]
    requires c.data < |shreds| && shreds[c.data].slot == c.slot
    ensures Tracks(shreds, roots, c.(data := c.data + 1))
    ensures Join(shreds, c.data, roots) == [shreds[c.data]] + Join(shreds, c.data + 1, roots)
  {
    assert roots[c.root] in roots;
  }

  lemma NextRoot(shreds: seq<Shred>, roots: seq<nat>, c: Cursor, r: nat)
    requires Tracks(shreds, roots, c) && c.slotDone && !c.iterDone
    requires r <= |roots| && (forall i | 0 <= i < r :: roots[i] < c.slot + 1)
    requires r < |roots| ==> c.slot + 1 <= roots[r]
    ensures c.root < r && Tracks(shreds, roots, c.(root := r, slot := UINT64_MAX, slotDone := false))
  {
    assert roots[c.root] == c.slot;
    assert forall i | 0 <= i < r :: roots[i] <= roots[c.root];
  }

  lemma Finished(shreds: seq<Shred>, roots: seq<nat>, c: Cursor)
    requires Tracks(shreds, roots, c) && c.slotDone && c.iterDone
    ensures Join(shreds, c.data, roots) == []
  {
  }

  class Source {
    const shreds: seq<Shred>
    const roots: seq<nat>
    var dataPos: nat
    var rootPos: nat
    var currentSlot: nat
    var dataSlotDone: bool
    var dataIterDone: bool

    ghost function At(): Cursor
      reads this
    {
      Cursor(dataPos, rootPos, currentSlot, dataSlotDone, dataIterDone)
    }

    ghost predicate Valid()
      reads this
    {
      Tracks(shreds, roots, At()) && dataPos <= |shreds|
    }

    /** What the calls to come will return. */
    ghost function Pending(): seq<Shred>
      reads this
      requires dataPos <= |shreds|
    {
      Join(shreds, dataPos, roots)
    }

    constructor (shreds: seq<Shred>, roots: seq<nat>)
      requires Sorted(shreds) && Rooted(roots) && forall i | 0 <= i < |shreds| :: shreds[i].slot <= UINT64_MAX
      ensures Valid() && Pending() == Join(shreds, 0, roots) && this.shreds == shreds && this.roots == roots
    {
      this.shreds, this.roots := shreds, roots;
      dataPos, rootPos, currentSlot := 0, 0, UINT64_MAX;
      dataSlotDone, dataIterDone := false, false;
    }

    /** One call: the next rooted shred, cut to the buffer, or nothing - and then nothing
        ever after, since what is pending stays empty. */
    method Next(bufSz: nat) returns (r: Option<Bytes>)
      requires Valid()
      modifies this
      ensures Valid()
      ensures old(Pending()) == [] ==> r == None && Pending() == []
      ensures old(Pending()) != [] ==>
        r == Some(Truncate(old(Pending())[0].value, bufSz)) && Pending() == old(Pending())[1..]
    {
      hide Tracks, Join, Truncate, Sorted, Rooted;
      while true
        invariant Valid() && Pending() == old(Pending())
        decreases |roots| - rootPos, |shreds| - dataPos, if dataSlotDone then 0 else 1
      {
        TracksBounds(shreds, roots, At());
        if currentSlot == UINT64_MAX {
          if rootPos == |roots| {
            AfterRoots(shreds, roots, At());
            dataIterDone := true;
            return None;
          }
          TakeRoot(shreds, roots, At());
          currentSlot := roots[rootPos];
        }
        if !dataSlotDone {
          if dataPos == |shreds| {
            DataEnds(shreds, roots, At());
            dataSlotDone, dataIterDone := true, true;
          } else if shreds[dataPos].slot > currentSlot {
            SlotEnds(shreds, roots, At());
            dataSlotDone := true;
          } else if shreds[dataPos].slot < currentSlot {
            var d := Seek(shreds, currentSlot);
            SeekData(shreds, roots, At(), d);
            dataPos := d;
          } else {
            var value := shreds[dataPos].value;
            TakeShred(shreds, roots, At());
            dataPos := dataPos + 1;
            return Some(Truncate(value, bufSz));
          }
        } else {
          if dataIterDone {
            Finished(shreds, roots, At());
            return None;
          }
          var p := SeekRoot(roots, currentSlot + 1);
          NextRoot(shreds, roots, At(), p);
          rootPos := p;
          currentSlot := UINT64_MAX;
          dataSlotDone := false;
        }
      }
    }
  }

  lemma TracksBounds(shreds: seq<Shred>, roots: seq<nat>, c: Cursor)
    requires Tracks(shreds, roots, c)
    ensures Sorted(shreds) && Rooted(roots) && c.data <= |shreds| && c.root <= |roots|
    ensures c.slot != UINT64_MAX ==> c.root < |roots| && c.slot == roots[c.root]
  {
  }

  lemma NoRootLeft(shreds: seq<Shred>, d: nat, roots: seq<nat>)
    requires d <= |shreds| && forall i, j | 0 <= i < |roots| && d <= j < |shreds| :: roots[i] < shreds[j].slot
    ensures Join(shreds, d, roots) == []
  {
    JoinSkips(shreds, d, |shreds|, roots);
  }

  /** Shreds between two roots belong to neither. */
  lemma SkipBehind(shreds: seq<Shred>, d: nat, e: nat, roots: seq<nat>, r: nat)
    requires Rooted(roots) && Sorted(shreds) && d <= |shreds| && e <= |shreds| && r < |roots| && d < |shreds|
    requires shreds[d].slot < roots[r]
    requires forall i, j | 0 <= i < r && d <= j < |shreds| :: roots[i] < shreds[j].slot
    requires (forall i | 0 <= i < e :: shreds[i].slot < roots[r]) && (e < |shreds| ==> roots[r] <= shreds[e].slot)
    ensures d < e && Join(shreds, d, roots) == Join(shreds, e, roots)
  {
    forall i | d <= i < e
      ensures shreds[i].slot !in roots
    {
      forall k | 0 <= k < |roots|
        ensures roots[k] != shreds[i].slot
      {
      }
    }
    JoinSkips(shreds, d, e, roots);
  }
}
