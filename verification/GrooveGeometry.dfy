/** Address arithmetic of the nesting: objects of different superblocks, and
    objects and headers, never overlap. */
module GrooveGeometry {
  import opened GrooveConfig
  import opened GrooveState

  lemma MulMono(a: nat, b: nat, f: nat)
    requires a <= b
    ensures a * f <= b * f
  {
  }

  /** Objects lie after the header, inside the superblock, in index order. */
  lemma SlotBounds(s: Tree, x: Obj)
    requires x.sb in s.sbs && s.sbs[x.sb].szc < |s.cfg| && x.idx < Count(s, x.sb)
    ensures x.sb + BLOCK <= ObjOff(s, x)
    ensures ObjOff(s, x) + Footprint(s, x.sb) <= SbEnd(s, x.sb)
  {
    MulMono(x.idx + 1, Count(s, x.sb), Footprint(s, x.sb));
  }

  lemma SlotsApart(s: Tree, sb: nat, i: nat, j: nat)
    requires sb in s.sbs && s.sbs[sb].szc < |s.cfg| && i != j
    ensures || ObjOff(s, Obj(sb, i)) + Footprint(s, sb) <= ObjOff(s, Obj(sb, j))
            || ObjOff(s, Obj(sb, j)) + Footprint(s, sb) <= ObjOff(s, Obj(sb, i))
  {
    if i < j { MulMono(i + 1, j, Footprint(s, sb)); } else { MulMono(j + 1, i, Footprint(s, sb)); }
  }

  /** A nested superblock stays inside the object it was carved from. */
  lemma ChildInside(s: Tree, o: nat)
    requires TreeInv(s) && o in s.sbs && s.sbs[o].parent.InObject?
    ensures var x := s.sbs[o].parent.x;
            x.sb in s.sbs && x.idx < Count(s, x.sb) && s.sbs[o].szc < s.sbs[x.sb].szc
            && o == ObjOff(s, x) && SbEnd(s, o) <= ObjOff(s, x) + Footprint(s, x.sb)
  {
    assert SbOk(s, o);
    assert ValidRow(s.cfg, s.sbs[o].szc);
  }

  /** Superblock a lies in object j of superblock b, below or at the superblock
      carved from that object. */
  ghost predicate Below(s: Tree, a: nat, b: nat, j: nat)
    requires TreeInv(s)
  {
    && a in s.sbs && b in s.sbs
    && Obj(b, j) in s.own && s.own[Obj(b, j)] == Child
    && ObjOff(s, Obj(b, j)) <= a
    && SbEnd(s, a) <= ObjOff(s, Obj(b, j)) + Footprint(s, b)
    && s.sbs[a].szc < s.sbs[b].szc
    && s.sbs[a].szc <= s.sbs[ObjOff(s, Obj(b, j))].szc
    && (s.sbs[a].szc == s.sbs[ObjOff(s, Obj(b, j))].szc ==> a == ObjOff(s, Obj(b, j)))
  }

  datatype Relation = Apart | AInB(j: nat) | BInA(j: nat)

  ghost predicate Related(s: Tree, a: nat, b: nat, r: Relation)
    requires TreeInv(s) && a in s.sbs && b in s.sbs
  {
    match r
    case Apart => SbEnd(s, a) <= b || SbEnd(s, b) <= a
    case AInB(j) => Below(s, a, b, j)
    case BInA(j) => Below(s, b, a, j)
  }

  lemma VolumesApart(v: nat, w: nat)
    requires v != w
    ensures VolumeOff(v + 1) <= VolumeOff(w) || VolumeOff(w + 1) <= VolumeOff(v)
  {
  }

  lemma RootInVolume(s: Tree, a: nat)
    requires TreeInv(s) && a in s.sbs && s.sbs[a].szc == |s.cfg| - 1
    ensures s.sbs[a].parent.InVolume?
    ensures var v := s.sbs[a].parent.v; VolumeOff(v) + BLOCK == a && SbEnd(s, a) <= VolumeOff(v + 1)
  {
    assert SbOk(s, a);
    assert ValidRow(s.cfg, |s.cfg| - 1);
    if s.sbs[a].parent.InObject? { ChildInside(s, a); }
  }

  lemma RootsApart(s: Tree, a: nat, b: nat)
    requires TreeInv(s) && a in s.sbs && b in s.sbs && a != b
    requires s.sbs[a].szc == s.sbs[b].szc == |s.cfg| - 1
    ensures SbEnd(s, a) <= b || SbEnd(s, b) <= a
  {
    RootInVolume(s, a);
    RootInVolume(s, b);
    VolumesApart(s.sbs[a].parent.v, s.sbs[b].parent.v);
  }

  /** Any two superblocks are either apart or one lies in one object of the
      other: the common-ancestor argument, by induction on the classes. */
  lemma {:induction false} Nest(s: Tree, a: nat, b: nat) returns (r: Relation)
    requires TreeInv(s) && a in s.sbs && b in s.sbs && a != b
    ensures Related(s, a, b, r)
    decreases 2 * |s.cfg| - s.sbs[a].szc - s.sbs[b].szc, 1 + s.sbs[a].szc
  {
    assert SbOk(s, a) && SbOk(s, b);
    if s.sbs[b].szc < s.sbs[a].szc {
      r := Nest(s, b, a);
      r := match r case Apart => Apart case AInB(j) => BInA(j) case BInA(j) => AInB(j);
    } else if s.sbs[a].parent.InVolume? {
      RootsApart(s, a, b);
      r := Apart;
    } else {
      ChildInside(s, a);
      r := NestStep(s, a, b);
    }
  }

  lemma {:induction false} NestStep(s: Tree, a: nat, b: nat) returns (r: Relation)
    requires TreeInv(s) && a in s.sbs && b in s.sbs && a != b
    requires s.sbs[a].szc <= s.sbs[b].szc && s.sbs[a].parent.InObject?
    ensures Related(s, a, b, r)
    decreases 2 * |s.cfg| - s.sbs[a].szc - s.sbs[b].szc, 0
  {
    assert SbOk(s, a) && SbOk(s, b);
    ChildInside(s, a);
    var x := s.sbs[a].parent.x;
    SlotBounds(s, x);
    if x.sb == b {
      return AInB(x.idx);
    }
    var q := Nest(s, x.sb, b);
    match q
    case Apart => r := Apart;
    case AInB(j) => r := AInB(j);
    case BInA(j) =>
      assert j != x.idx;
      r := Apart;
      SlotsApart(s, x.sb, j, x.idx);
  }

  /** The volume that holds a superblock. */
  lemma {:induction false} RootOf(s: Tree, o: nat) returns (v: nat)
    requires TreeInv(s) && o in s.sbs
    ensures v in s.vols && s.vols[v] == Rooted
    ensures VolumeOff(v) + BLOCK <= o && SbEnd(s, o) <= VolumeOff(v + 1)
    decreases |s.cfg| - s.sbs[o].szc
  {
    assert SbOk(s, o);
    match s.sbs[o].parent
    case InVolume(w) =>
      RootInVolume(s, o);
      v := w;
    case InObject(x) =>
      ChildInside(s, o);
      v := RootOf(s, x.sb);
      SlotBounds(s, x);
  }

  ghost predicate Overlap(a: nat, aEnd: nat, b: nat, bEnd: nat) {
    a < bEnd && b < aEnd
  }

  /** Objects that are handed out, and not turned into superblocks, are
      pairwise disjoint. */
  lemma ObjectsDisjoint(s: Tree, x: Obj, y: Obj)
    requires TreeInv(s) && x in s.own && y in s.own && x != y
    requires s.own[x] != Child && s.own[y] != Child
    ensures !Overlap(ObjOff(s, x), ObjOff(s, x) + Footprint(s, x.sb), ObjOff(s, y), ObjOff(s, y) + Footprint(s, y.sb))
  {
    SlotBounds(s, x);
    SlotBounds(s, y);
    if x.sb == y.sb {
      SlotsApart(s, x.sb, x.idx, y.idx);
    } else {
      var r := Nest(s, x.sb, y.sb);
      match r
      case Apart =>
      case AInB(j) => SlotsApart(s, y.sb, j, y.idx);
      case BInA(j) => SlotsApart(s, x.sb, j, x.idx);
    }
  }

  /** Such an object never covers part of a superblock header block. */
  lemma ObjectOffHeaders(s: Tree, x: Obj, o: nat)
    requires TreeInv(s) && x in s.own && s.own[x] != Child && o in s.sbs
    ensures !Overlap(ObjOff(s, x), ObjOff(s, x) + Footprint(s, x.sb), o, o + BLOCK)
  {
    SlotBounds(s, x);
    if o != x.sb {
      var r := Nest(s, x.sb, o);
      match r
      case Apart =>
      case AInB(j) => SlotBounds(s, Obj(o, j));
      case BInA(j) => SlotsApart(s, x.sb, j, x.idx);
    }
  }

  /** The offset of an object that is not a superblock holds no superblock, so
      carving one there cannot collide. */
  lemma ObjectOffsetUnused(s: Tree, x: Obj)
    requires TreeInv(s) && x in s.own && s.own[x] != Child
    ensures ObjOff(s, x) !in s.sbs
  {
    if ObjOff(s, x) in s.sbs {
      assert SbOk(s, x.sb);
      assert ValidRow(s.cfg, s.sbs[x.sb].szc);
      ObjectOffHeaders(s, x, ObjOff(s, x));
    }
  }

  lemma RootOffsetUnused(s: Tree, v: nat)
    requires TreeInv(s) && (v in s.vols ==> s.vols[v] != Rooted)
    ensures RootOff(v) !in s.sbs
  {
    if RootOff(v) in s.sbs {
      var w := RootOf(s, RootOff(v));
      if w != v { VolumesApart(w, v); }
    }
  }
}
