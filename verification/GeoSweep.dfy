/** Flattening nested CIDR records into sorted segments with a stack of open ranges. */
module GeoSweep {
  import opened Basics

  /** What a segment maps to: country index and city index. */
  datatype Place = Place(country: nat, city: nat)

  const UNKNOWN := Place(255, 0xFFFF_FFFF)
  const SPACE: nat := 0x1_0000_0000

  datatype Cidr = Cidr(net: nat, plen: nat, place: Place)
  datatype Segment = Segment(start: nat, place: Place)
  datatype Open = Open(end: nat, place: Place)

  function Width(r: Cidr): nat
    requires r.plen <= 32
  {
    Pow2(32 - r.plen)
  }

  function End(r: Cidr): nat
    requires r.plen <= 32
  {
    r.net + Width(r)
  }

  /** An aligned CIDR range inside the IPv4 space. */
  predicate Aligned(r: Cidr) {
    r.plen <= 32 && r.net % Width(r) == 0 && End(r) <= SPACE
  }

  predicate Matches(r: Cidr, a: nat) {
    r.plen <= 32 && r.net <= a < End(r)
  }

  /** Sort order by network and prefix length; how ties are broken is the tail of the
      tuple order and does not matter here. */
  predicate Before(r: Cidr, q: Cidr) {
    r.net < q.net || (r.net == q.net && r.plen <= q.plen)
  }

  predicate Input(rs: seq<Cidr>) {
    && (forall i | 0 <= i < |rs| :: Aligned(rs[i]))
    && (forall i, j | 0 <= i < j < |rs| :: Before(rs[i], rs[j]))
  }

  /** The last matching record among the first n, in sort order. */
  function Lookup(rs: seq<Cidr>, n: nat, a: nat): Place
    requires n <= |rs|
  {
    if n == 0 then UNKNOWN
    else if Matches(rs[n - 1], a) then rs[n - 1].place
    else Lookup(rs, n - 1, a)
  }

  // ----- ranges nest or are disjoint --------------------------------------------------------------

  lemma {:induction false} PowSplit(a: nat, b: nat)
    requires a <= b
    ensures Pow2(b) == Pow2(a) * Pow2(b - a)
    decreases b
  {
    if a < b {
      PowSplit(a, b - 1);
      assert Pow2(b) == 2 * (Pow2(a) * Pow2(b - 1 - a));
    }
  }

  /** Of two multiples of w, the greater is at least w greater. */
  lemma Multiples(x: nat, y: nat, w: nat)
    requires w > 0 && x % w == 0 && y % w == 0 && x < y
    ensures x + w <= y
  {
    var p, q := x / w, y / w;
    assert x == w * p && y == w * q;
    MulGap(w, p, q);
    MulGap(w, q, p);
  }

  lemma MultipleOf(x: nat, v: nat, k: nat)
    requires v > 0 && k > 0 && x % (v * k) == 0
    ensures x % v == 0
  {
    var q := x / (v * k);
    assert x == v * k * q == v * (k * q);
    MulMod(v, k * q);
  }

  lemma {:induction false} MulMod(v: nat, n: nat)
    requires v > 0
    ensures (v * n) % v == 0
    decreases n
  {
    if n > 0 {
      MulMod(v, n - 1);
      assert v * n == v * (n - 1) + v;
      AddWidth(v * (n - 1), v);
    }
  }

  lemma AddWidth(x: nat, v: nat)
    requires v > 0 && x % v == 0
    ensures (x + v) % v == 0
  {
    var q := x / v;
    assert x + v == v * (q + 1);
    var p, r := (x + v) / v, (x + v) % v;
    assert v * p + r == v * (q + 1);
    MulGap(v, p, q + 1);
    MulGap(v, q + 1, p);
  }

  lemma MulGap(v: nat, a: nat, b: nat)
    ensures a < b ==> v * a + v <= v * b
  {
    if a < b {
      var d := b - a - 1;
      assert v * b == v * (a + 1 + d) == v * a + v + v * d;
    }
  }

  /** A record that starts inside an earlier one ends inside it, and has the longer
      prefix. */
  lemma Nested(r: Cidr, q: Cidr)
    requires Aligned(r) && Aligned(q) && Before(r, q) && r.net <= q.net < End(r)
    ensures End(q) <= End(r) && r.plen <= q.plen
  {
    hide Pow2;
    if r.net < q.net {
      if q.plen < r.plen {
        PowSplit(32 - r.plen, 32 - q.plen);
        MultipleOf(q.net, Width(r), Pow2(r.plen - q.plen));
        Multiples(r.net, q.net, Width(r));
        assert false;
      }
      PowSplit(32 - q.plen, 32 - r.plen);
      MultipleOf(r.net, Width(q), Pow2(q.plen - r.plen));
      MulMod(Width(q), Pow2(q.plen - r.plen));
      SumMod(r.net, Width(r), Width(q));
      Multiples(q.net, End(r), Width(q));
    } else {
      PowMonotone(32 - q.plen, 32 - r.plen);
    }
  }

  lemma SumMod(x: nat, y: nat, v: nat)
    requires v > 0 && x % v == 0 && y % v == 0
    ensures (x + y) % v == 0
  {
    var p, q := x / v, y / v;
    assert x + y == v * p + v * q == v * (p + q);
    MulMod(v, p + q);
  }

  /** So the last match in sort order is a longest one. */
  lemma {:induction false} LookupLongest(rs: seq<Cidr>, n: nat, a: nat, j: nat)
    requires Input(rs) && j < n <= |rs| && Matches(rs[j], a)
    ensures exists i :: j <= i < n && Matches(rs[i], a) && rs[i].place == Lookup(rs, n, a) && rs[j].plen <= rs[i].plen
  {
    if Matches(rs[n - 1], a) {
      if j < n - 1 {
        assert Before(rs[j], rs[n - 1]);
        Nested(rs[j], rs[n - 1]);
      }
    } else {
      LookupLongest(rs, n - 1, a, j);
    }
  }

  // ----- segments --------------------------------------------------------------------------------

  /** Starts go up strictly from zero. */
  predicate Partition(segs: seq<Segment>) {
    && segs != [] && segs[0].start == 0
    && (forall i, j | 0 <= i < j < |segs| :: segs[i].start < segs[j].start)
    && (forall i | 0 <= i < |segs| :: segs[i].start < SPACE)
  }

  /** The place of the segment that covers an address. */
  function Cover(segs: seq<Segment>, a: nat): Place {
    if segs == [] then UNKNOWN
    else if segs[|segs| - 1].start <= a then segs[|segs| - 1].place
    else Cover(segs[..|segs| - 1], a)
  }

  function Last(segs: seq<Segment>): Segment
    requires segs != []
  {
    segs[|segs| - 1]
  }

  function Emit(segs: seq<Segment>, start: nat, p: Place): seq<Segment> {
    if start >= SPACE then segs
    else if segs != [] && Last(segs).start == start then segs[|segs| - 1 := Segment(start, p)]
    else if segs != [] && Last(segs).place == p then segs
    else segs + [Segment(start, p)]
  }

  /** Emitting repaints everything from its start on. */
  lemma EmitCovers(segs: seq<Segment>, start: nat, p: Place, a: nat)
    requires Partition(segs) && Last(segs).start <= start && a < SPACE
    ensures Partition(Emit(segs, start, p))
    ensures start < SPACE ==> Last(Emit(segs, start, p)).start <= start && Last(Emit(segs, start, p)).place == p
    ensures Cover(Emit(segs, start, p), a) == if start <= a then p else Cover(segs, a)
  {
    var n := |segs| - 1;
    assert segs[n := Segment(start, p)][..n] == segs[..n];
    assert (segs + [Segment(start, p)])[..n + 1] == segs;
  }

  // ----- the stack ---------------------------------------------------------------------------------

  /** The innermost open range that reaches past an address. */
  function OpenAt(stack: seq<Open>, a: nat): Place {
    if stack == [] then UNKNOWN
    else if a < stack[|stack| - 1].end then stack[|stack| - 1].place
    else OpenAt(stack[..|stack| - 1], a)
  }

  function Top(stack: seq<Open>): Open
    requires stack != []
  {
    stack[|stack| - 1]
  }

  /** The open ranges at position pos with n records consumed, each inside the one below
      it; from says which record an entry came from. */
  ghost predicate Stacked(rs: seq<Cidr>, n: nat, pos: nat, stack: seq<Open>, from: seq<nat>) {
    && n <= |rs| && pos <= SPACE
    && stack != [] && stack[0] == Open(SPACE, UNKNOWN) && |from| == |stack|
    && (forall i, j | 0 <= i < j < |stack| :: stack[j].end <= stack[i].end)
    && pos <= Top(stack).end
    && (forall i | 0 < i < |stack| ::
          from[i] < n && rs[from[i]].net <= pos && rs[from[i]].plen <= 32 && stack[i].end == End(rs[from[i]]))
  }

  /** Sweep state: segments are right below pos, and the stack is right from pos on. */
  ghost predicate Sweeping(rs: seq<Cidr>, n: nat, pos: nat, stack: seq<Open>, from: seq<nat>, segs: seq<Segment>) {
    && Stacked(rs, n, pos, stack, from)
    && Partition(segs) && segs != [] && Last(segs).start <= pos
    && (pos < SPACE ==> Last(segs).place == Top(stack).place)
    && (forall a | 0 <= a < pos :: Cover(segs, a) == Lookup(rs, n, a))
    && (forall a | pos <= a < SPACE :: Lookup(rs, n, a) == OpenAt(stack, a))
  }

  /** Closing the innermost range. */
  lemma PopOk(rs: seq<Cidr>, n: nat, pos: nat, stack: seq<Open>, from: seq<nat>, segs: seq<Segment>)
    requires Sweeping(rs, n, pos, stack, from, segs) && |stack| > 1
    ensures var m := |stack| - 1;
      Sweeping(rs, n, Top(stack).end, stack[..m], from[..m], Emit(segs, Top(stack).end, Top(stack[..m]).place))
  {
    hide Lookup, Partition, Emit, End;
    var m := |stack| - 1;
    var e := Top(stack).end;
    var p := Top(stack[..m]).place;
    var segs' := Emit(segs, e, p);
    EmitCovers(segs, e, p, 0);
    EmitLast(segs, e, p);
    forall a | 0 <= a < SPACE
      ensures a < e ==> Cover(segs', a) == Lookup(rs, n, a)
      ensures e <= a ==> Lookup(rs, n, a) == OpenAt(stack[..m], a)
    {
      EmitCovers(segs, e, p, a);
    }
  }

  lemma EmitLast(segs: seq<Segment>, start: nat, p: Place)
    requires Partition(segs) && Last(segs).start <= start
    ensures Emit(segs, start, p) != [] && Last(Emit(segs, start, p)).start <= start
  {
  }

  /** Opening the next record's range. */
  lemma PushOk(rs: seq<Cidr>, n: nat, pos: nat, stack: seq<Open>, from: seq<nat>, segs: seq<Segment>)
    requires Input(rs) && n < |rs| && Sweeping(rs, n, pos, stack, from, segs) && pos <= rs[n].net < Top(stack).end
    ensures var r := rs[n];
      Sweeping(rs, n + 1, r.net, stack + [Open(End(r), r.place)], from + [n], Emit(segs, r.net, r.place))
  {
    var r := rs[n];
    assert Aligned(r);
    var stack' := stack + [Open(End(r), r.place)];
    var segs' := Emit(segs, r.net, r.place);
    PushNests(rs, n, pos, stack, from, segs);
    PushStacked(rs, n, pos, stack, from);
    hide Partition, Emit, Aligned, End, Before, Input, Stacked;
    EmitCovers(segs, r.net, r.place, 0);
    EmitLast(segs, r.net, r.place);
    assert stack'[..|stack|] == stack;
    forall a | 0 <= a < SPACE
      ensures a < r.net ==> Cover(segs', a) == Lookup(rs, n + 1, a)
      ensures r.net <= a ==> Lookup(rs, n + 1, a) == OpenAt(stack', a)
    {
      EmitCovers(segs, r.net, r.place, a);
    }
  }

  lemma PushStacked(rs: seq<Cidr>, n: nat, pos: nat, stack: seq<Open>, from: seq<nat>)
    requires n < |rs| && Stacked(rs, n, pos, stack, from) && pos <= rs[n].net && rs[n].plen <= 32
    requires rs[n].net < End(rs[n]) <= Top(stack).end
    ensures Stacked(rs, n + 1, rs[n].net, stack + [Open(End(rs[n]), rs[n].place)], from + [n])
  {
    hide End;
  }

  /** The new range ends inside the innermost open one. */
  lemma PushNests(rs: seq<Cidr>, n: nat, pos: nat, stack: seq<Open>, from: seq<nat>, segs: seq<Segment>)
    requires Input(rs) && n < |rs| && Sweeping(rs, n, pos, stack, from, segs) && pos <= rs[n].net < Top(stack).end
    ensures rs[n].plen <= 32 && rs[n].net < End(rs[n]) <= Top(stack).end && End(rs[n]) <= SPACE
  {
    hide Partition, Cover, Lookup, OpenAt;
    assert Aligned(rs[n]);
    if |stack| > 1 {
      var k := from[|stack| - 1];
      assert Before(rs[k], rs[n]) && Aligned(rs[k]);
      Nested(rs[k], rs[n]);
    }
  }

  lemma StartOk(rs: seq<Cidr>)
    ensures Sweeping(rs, 0, 0, [Open(SPACE, UNKNOWN)], [0], Emit([], 0, UNKNOWN))
  {
    assert Emit([], 0, UNKNOWN) == [Segment(0, UNKNOWN)];
    var stack := [Open(SPACE, UNKNOWN)];
    assert forall a | 0 <= a < SPACE :: OpenAt(stack, a) == UNKNOWN;
  }

  /** Every address is mapped to its last match in sort order. */
  ghost predicate Flattened(rs: seq<Cidr>, segs: seq<Segment>) {
    Partition(segs) && forall a: nat :: a < SPACE ==> Cover(segs, a) == Lookup(rs, |rs|, a)
  }

  /** The sweep. */
  method Flatten(rs: seq<Cidr>) returns (segs: seq<Segment>)
    requires Input(rs)
    ensures Flattened(rs, segs)
  {
    hide Sweeping, Partition, Input, Cover, Lookup, Emit, End;
    var stack := [Open(SPACE, UNKNOWN)];
    segs := Emit([], 0, UNKNOWN);
    StartOk(rs);
    ghost var from: seq<nat>, pos: nat := [0], 0;
    var i := 0;
    while i < |rs|
      invariant 0 <= i <= |rs| && Sweeping(rs, i, pos, stack, from, segs)
      invariant stack != [] && |from| == |stack| && (i < |rs| ==> pos <= rs[i].net)
    {
      RecordFits(rs, i);
      SweepingStack(rs, i, pos, stack, from, segs);
      while Top(stack).end <= rs[i].net
        invariant Sweeping(rs, i, pos, stack, from, segs) && |from| == |stack| > 0 && stack[0].end == SPACE
        invariant pos <= rs[i].net
        decreases |stack|
      {
        PopOk(rs, i, pos, stack, from, segs);
        var closed := Top(stack).end;
        pos, from := closed, from[..|stack| - 1];
        stack := stack[..|stack| - 1];
        segs := Emit(segs, closed, Top(stack).place);
      }
      PushOk(rs, i, pos, stack, from, segs);
      pos, from := rs[i].net, from + [i];
      stack := stack + [Open(End(rs[i]), rs[i].place)];
      segs := Emit(segs, rs[i].net, rs[i].place);
      if i + 1 < |rs| { NextStarts(rs, i); }
      i := i + 1;
    }
    while |stack| > 1
      invariant Sweeping(rs, |rs|, pos, stack, from, segs) && |from| == |stack| > 0
      decreases |stack|
    {
      PopOk(rs, |rs|, pos, stack, from, segs);
      var closed := Top(stack).end;
      pos, from := closed, from[..|stack| - 1];
      stack := stack[..|stack| - 1];
      segs := Emit(segs, closed, Top(stack).place);
    }
    Swept(rs, pos, stack, from, segs);
  }

  lemma RecordFits(rs: seq<Cidr>, i: nat)
    requires Input(rs) && i < |rs|
    ensures rs[i].net < SPACE && rs[i].plen <= 32
  {
    assert Aligned(rs[i]);
  }

  lemma SweepingStack(rs: seq<Cidr>, n: nat, pos: nat, stack: seq<Open>, from: seq<nat>, segs: seq<Segment>)
    requires Sweeping(rs, n, pos, stack, from, segs)
    ensures stack != [] && stack[0].end == SPACE
  {
  }

  lemma NextStarts(rs: seq<Cidr>, i: nat)
    requires Input(rs) && i + 1 < |rs|
    ensures rs[i].net <= rs[i + 1].net
  {
    assert Before(rs[i], rs[i + 1]);
  }

  lemma Swept(rs: seq<Cidr>, pos: nat, stack: seq<Open>, from: seq<nat>, segs: seq<Segment>)
    requires Sweeping(rs, |rs|, pos, stack, from, segs) && |stack| == 1
    ensures Flattened(rs, segs)
  {
    hide Lookup, Partition;
  }
}
