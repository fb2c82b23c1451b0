/** The changes a step makes to superblocks, objects and volumes, and that each
    keeps the nesting intact. */
module GrooveTree {
  import opened GrooveConfig
  import opened GrooveState
  import opened GrooveGeometry

  /** The bit field with bits [0,n) set. */
  function AllFree(n: nat): (f: set<nat>)
    ensures forall i: nat :: i in f <==> i < n
  {
    if n == 0 then {} else AllFree(n - 1) + {n - 1}
  }

  /** fetch-and-sub of one object's bit. */
  function Take(s: Tree, x: Obj, t: nat): Tree
    requires x.sb in s.sbs
  {
    s.(sbs := s.sbs[x.sb := s.sbs[x.sb].(free := s.sbs[x.sb].free - {x.idx})], own := s.own[x := Thread(t)])
  }

  /** fetch-and-add of one object's bit. */
  function Give(s: Tree, x: Obj): Tree
    requires x.sb in s.sbs
  {
    s.(sbs := s.sbs[x.sb := s.sbs[x.sb].(free := s.sbs[x.sb].free + {x.idx})], own := s.own - {x})
  }

  function SetOwner(s: Tree, x: Obj, w: Owner): Tree {
    s.(own := s.own[x := w])
  }

  function SetInfo(s: Tree, o: nat, info: nat): Tree
    requires o in s.sbs
  {
    s.(sbs := s.sbs[o := s.sbs[o].(info := info)])
  }

  function SetVolume(s: Tree, v: nat, w: VolumeOwner): Tree {
    s.(vols := s.vols[v := w])
  }

  /** Format an object as a superblock of class szc with every object free. */
  function Carve(s: Tree, x: Obj, szc: nat): Tree
    requires x.sb in s.sbs && s.sbs[x.sb].szc < |s.cfg| && szc < |s.cfg|
  {
    var sb := Superblock(szc, InObject(x), AllFree(s.cfg[szc].objCnt), 0);
    s.(sbs := s.sbs[ObjOff(s, x) := sb], own := s.own[x := Child])
  }

  /** Format a volume as a superblock of the last class. */
  function CarveVolume(s: Tree, v: nat): Tree
    requires 0 < |s.cfg|
  {
    s.(sbs := s.sbs[RootOff(v) := Superblock(|s.cfg| - 1, InVolume(v), AllFree(s.cfg[|s.cfg| - 1].objCnt), 0)],
       vols := s.vols[v := Rooted])
  }

  /** A completely free superblock stops being one: its object, or its volume,
      is in the hands of thread t. */
  function Uncarve(s: Tree, o: nat, t: nat): Tree
    requires o in s.sbs
  {
    match s.sbs[o].parent
    case InObject(x) => s.(sbs := s.sbs - {o}, own := s.own[x := Thread(t)])
    case InVolume(v) => s.(sbs := s.sbs - {o}, vols := s.vols[v := HeldBy(t)])
  }

  lemma {:induction false} FullIsAll(f: set<nat>, n: nat)
    requires forall i :: i in f ==> i < n
    ensures |f| <= n
    ensures |f| == n ==> f == AllFree(n)
    decreases n
  {
    if n > 0 {
      FullIsAll(f - {n - 1}, n - 1);
      if n - 1 !in f { assert f - {n - 1} == f; }
    } else {
      assert f == {};
    }
  }

  /** SbOk reads only which superblocks exist, their class and the object's owner. */
  lemma SbFrame(s: Tree, s': Tree, o: nat)
    requires o in s.sbs && SbOk(s, o) && o in s'.sbs && s'.cfg == s.cfg
    requires s'.sbs[o].szc == s.sbs[o].szc && s'.sbs[o].parent == s.sbs[o].parent
    requires forall i :: i in s'.sbs[o].free ==> i < Count(s, o)
    requires s.sbs[o].parent.InObject? ==>
      var x := s.sbs[o].parent.x;
      x.sb in s'.sbs && s'.sbs[x.sb].szc == s.sbs[x.sb].szc && x in s'.own && s'.own[x] == Child
    requires s.sbs[o].parent.InVolume? ==> s.sbs[o].parent.v in s'.vols && s'.vols[s.sbs[o].parent.v] == Rooted
    ensures SbOk(s', o)
  {
  }

  /** OwnOk reads one object's bit and owner, and the superblock carved from it. */
  lemma OwnFrame(s: Tree, s': Tree, x: Obj)
    requires OwnOk(s, x) && s'.cfg == s.cfg
    requires x.sb in s.sbs <==> x.sb in s'.sbs
    requires x.sb in s.sbs ==>
        s'.sbs[x.sb].szc == s.sbs[x.sb].szc && (x.idx in s'.sbs[x.sb].free <==> x.idx in s.sbs[x.sb].free)
    requires x in s.own <==> x in s'.own
    requires x in s.own ==> s'.own[x] == s.own[x]
    requires x in s.own && s.own[x] == Child ==>
      ObjOff(s, x) in s'.sbs && s'.sbs[ObjOff(s, x)].parent == s.sbs[ObjOff(s, x)].parent
    ensures OwnOk(s', x)
  {
  }

  lemma TakeSb(s: Tree, x: Obj, t: nat, o: nat)
    requires x.sb in s.sbs && x.idx in s.sbs[x.sb].free && SbOk(s, x.sb) && OwnOk(s, x)
    requires o in s.sbs && SbOk(s, o)
    ensures SbOk(Take(s, x, t), o)
  {
    hide ObjOff;
    SbFrame(s, Take(s, x, t), o);
  }

  lemma TakeOwn(s: Tree, x: Obj, t: nat, y: Obj)
    requires x.sb in s.sbs && x.idx in s.sbs[x.sb].free && SbOk(s, x.sb) && OwnOk(s, x)
    requires OwnOk(s, y)
    ensures OwnOk(Take(s, x, t), y)
  {
    hide ObjOff;
    if y != x { OwnFrame(s, Take(s, x, t), y); }
  }

  lemma TakeTree(s: Tree, x: Obj, t: nat)
    requires TreeInv(s) && x.sb in s.sbs && x.idx in s.sbs[x.sb].free && SbOk(s, x.sb) && OwnOk(s, x)
    ensures TreeInv(Take(s, x, t))
  {
    var s' := Take(s, x, t);
    hide SbOk, OwnOk, ObjOff;
    forall v ensures VolumeOk(s', v) { assert VolumeOk(s, v); }
    forall o | o in s'.sbs ensures SbOk(s', o) { TakeSb(s, x, t, o); }
    forall y ensures OwnOk(s', y) { TakeOwn(s, x, t, y); }
  }

  lemma GiveSb(s: Tree, x: Obj, o: nat)
    requires x in s.own && s.own[x] != Child && OwnOk(s, x)
    requires o in s.sbs && SbOk(s, o)
    ensures SbOk(Give(s, x), o)
  {
    hide ObjOff;
    SbFrame(s, Give(s, x), o);
  }

  lemma GiveOwn(s: Tree, x: Obj, y: Obj)
    requires x in s.own && s.own[x] != Child && OwnOk(s, x)
    requires OwnOk(s, y)
    ensures OwnOk(Give(s, x), y)
  {
    hide ObjOff;
    if y != x { OwnFrame(s, Give(s, x), y); }
  }

  lemma GiveTree(s: Tree, x: Obj)
    requires TreeInv(s) && x in s.own && s.own[x] != Child && OwnOk(s, x)
    ensures TreeInv(Give(s, x))
  {
    var s' := Give(s, x);
    hide SbOk, OwnOk, ObjOff;
    forall v ensures VolumeOk(s', v) { assert VolumeOk(s, v); }
    forall o | o in s'.sbs ensures SbOk(s', o) { GiveSb(s, x, o); }
    forall y ensures OwnOk(s', y) { GiveOwn(s, x, y); }
  }

  lemma SetOwnerSb(s: Tree, x: Obj, w: Owner, o: nat)
    requires x in s.own && s.own[x] != Child && w != Child
    requires o in s.sbs && SbOk(s, o)
    ensures SbOk(SetOwner(s, x, w), o)
  {
    hide ObjOff;
    SbFrame(s, SetOwner(s, x, w), o);
  }

  lemma SetOwnerOwn(s: Tree, x: Obj, w: Owner, y: Obj)
    requires x in s.own && s.own[x] != Child && w != Child
    requires OwnOk(s, y)
    ensures OwnOk(SetOwner(s, x, w), y)
  {
    hide ObjOff;
    if y != x { OwnFrame(s, SetOwner(s, x, w), y); }
  }

  lemma SetOwnerTree(s: Tree, x: Obj, w: Owner)
    requires TreeInv(s) && x in s.own && s.own[x] != Child && w != Child
    ensures TreeInv(SetOwner(s, x, w))
  {
    var s' := SetOwner(s, x, w);
    hide SbOk, OwnOk, ObjOff;
    forall v ensures VolumeOk(s', v) { assert VolumeOk(s, v); }
    forall o | o in s'.sbs ensures SbOk(s', o) { SetOwnerSb(s, x, w, o); }
    forall y ensures OwnOk(s', y) { SetOwnerOwn(s, x, w, y); }
  }

  lemma SetInfoSb(s: Tree, q: nat, info: nat, o: nat)
    requires q in s.sbs
    requires o in s.sbs && SbOk(s, o)
    ensures SbOk(SetInfo(s, q, info), o)
  {
    hide ObjOff;
    SbFrame(s, SetInfo(s, q, info), o);
  }

  lemma SetInfoOwn(s: Tree, q: nat, info: nat, y: Obj)
    requires q in s.sbs
    requires OwnOk(s, y)
    ensures OwnOk(SetInfo(s, q, info), y)
  {
    hide ObjOff;
    OwnFrame(s, SetInfo(s, q, info), y);
  }

  lemma SetInfoTree(s: Tree, q: nat, info: nat)
    requires TreeInv(s) && q in s.sbs
    ensures TreeInv(SetInfo(s, q, info))
  {
    var s' := SetInfo(s, q, info);
    hide SbOk, OwnOk, ObjOff;
    forall v ensures VolumeOk(s', v) { assert VolumeOk(s, v); }
    forall o | o in s'.sbs ensures SbOk(s', o) { SetInfoSb(s, q, info, o); }
    forall y ensures OwnOk(s', y) { SetInfoOwn(s, q, info, y); }
  }

  lemma SetVolumeSb(s: Tree, v: nat, w: VolumeOwner, o: nat)
    requires (v in s.vols ==> s.vols[v] != Rooted) && w != Rooted
    requires o in s.sbs && SbOk(s, o)
    ensures SbOk(SetVolume(s, v, w), o)
  {
    hide ObjOff;
    SbFrame(s, SetVolume(s, v, w), o);
  }

  lemma SetVolumeOwn(s: Tree, v: nat, w: VolumeOwner, y: Obj)
    requires (v in s.vols ==> s.vols[v] != Rooted) && w != Rooted
    requires OwnOk(s, y)
    ensures OwnOk(SetVolume(s, v, w), y)
  {
    hide ObjOff;
    OwnFrame(s, SetVolume(s, v, w), y);
  }

  lemma SetVolumeTree(s: Tree, v: nat, w: VolumeOwner)
    requires TreeInv(s) && (v in s.vols ==> s.vols[v] != Rooted) && w != Rooted
    ensures TreeInv(SetVolume(s, v, w))
  {
    var s' := SetVolume(s, v, w);
    hide SbOk, OwnOk, ObjOff;
    forall v ensures VolumeOk(s', v) { assert VolumeOk(s, v); }
    forall o | o in s'.sbs ensures SbOk(s', o) { SetVolumeSb(s, v, w, o); }
    forall y ensures OwnOk(s', y) { SetVolumeOwn(s, v, w, y); }
  }

  lemma ObjOffFrame(s: Tree, s': Tree, x: Obj)
    requires x.sb in s.sbs && s.sbs[x.sb].szc < |s.cfg|
    requires s'.cfg == s.cfg && x.sb in s'.sbs && s'.sbs[x.sb].szc == s.sbs[x.sb].szc
    ensures ObjOff(s', x) == ObjOff(s, x)
  {
  }

  lemma CarveSb(s: Tree, x: Obj, szc: nat, o: nat)
    requires x in s.own && s.own[x] != Child && OwnOk(s, x) && ValidCfg(s.cfg)
      && szc < |s.cfg| && s.cfg[szc].parentSzc == s.sbs[x.sb].szc
    requires ObjOff(s, x) !in s.sbs && (o == ObjOff(s, x) || (o in s.sbs && SbOk(s, o)))
    ensures SbOk(Carve(s, x, szc), o)
  {
    ObjOffFrame(s, Carve(s, x, szc), x);
    hide ObjOff;
    if o in s.sbs { SbFrame(s, Carve(s, x, szc), o); }
  }

  lemma CarveOwn(s: Tree, x: Obj, szc: nat, y: Obj)
    requires x in s.own && s.own[x] != Child && OwnOk(s, x) && ValidCfg(s.cfg)
      && szc < |s.cfg| && s.cfg[szc].parentSzc == s.sbs[x.sb].szc
    requires ObjOff(s, x) !in s.sbs && OwnOk(s, y)
    ensures OwnOk(Carve(s, x, szc), y)
  {
    ObjOffFrame(s, Carve(s, x, szc), x);
    hide ObjOff;
    if y != x && y.sb != ObjOff(s, x) { OwnFrame(s, Carve(s, x, szc), y); }
  }

  lemma CarveTree(s: Tree, x: Obj, szc: nat)
    requires TreeInv(s) && x in s.own && s.own[x] != Child && OwnOk(s, x) && ValidCfg(s.cfg)
      && szc < |s.cfg| && s.cfg[szc].parentSzc == s.sbs[x.sb].szc
    ensures TreeInv(Carve(s, x, szc))
  {
    var s' := Carve(s, x, szc);
    ObjectOffsetUnused(s, x);
    hide SbOk, OwnOk, ObjOff;
    forall v ensures VolumeOk(s', v) { assert VolumeOk(s, v); }
    forall o | o in s'.sbs ensures SbOk(s', o) { CarveSb(s, x, szc, o); }
    forall y ensures OwnOk(s', y) { CarveOwn(s, x, szc, y); }
  }

  lemma CarveVolumeSb(s: Tree, v: nat, o: nat)
    requires v in s.vols && s.vols[v] != Rooted && ValidCfg(s.cfg)
    requires RootOff(v) !in s.sbs && (o == RootOff(v) || (o in s.sbs && SbOk(s, o)))
    ensures SbOk(CarveVolume(s, v), o)
  {
    hide ObjOff;
    if o in s.sbs { SbFrame(s, CarveVolume(s, v), o); }
  }

  lemma CarveVolumeOwn(s: Tree, v: nat, y: Obj)
    requires v in s.vols && s.vols[v] != Rooted && ValidCfg(s.cfg)
    requires RootOff(v) !in s.sbs && OwnOk(s, y)
    ensures OwnOk(CarveVolume(s, v), y)
  {
    hide ObjOff;
    if y.sb != RootOff(v) { OwnFrame(s, CarveVolume(s, v), y); }
  }

  lemma CarveVolumeTree(s: Tree, v: nat)
    requires TreeInv(s) && v in s.vols && s.vols[v] != Rooted && ValidCfg(s.cfg)
    ensures TreeInv(CarveVolume(s, v))
  {
    var s' := CarveVolume(s, v);
    RootOffsetUnused(s, v);
    hide SbOk, OwnOk, ObjOff;
    forall v ensures VolumeOk(s', v) { assert VolumeOk(s, v); }
    forall o | o in s'.sbs ensures SbOk(s', o) { CarveVolumeSb(s, v, o); }
    forall y ensures OwnOk(s', y) { CarveVolumeOwn(s, v, y); }
  }

  /** A completely free superblock has no object out, so nothing depends on it. */
  lemma UncarvedUnused(s: Tree, q: nat)
    requires TreeInv(s) && q in s.sbs && s.sbs[q].free == AllFree(Count(s, q))
    ensures forall x :: x in s.own ==> x.sb != q
  {
    forall x | x in s.own ensures x.sb != q { assert OwnOk(s, x); }
  }

  lemma UncarveSb(s: Tree, q: nat, t: nat, o: nat)
    requires q in s.sbs && SbOk(s, q) && s.sbs[q].free == AllFree(Count(s, q))
    requires o in s.sbs && o != q && SbOk(s, o) && forall x :: x in s.own ==> x.sb != q
    ensures SbOk(Uncarve(s, q, t), o)
  {
    hide ObjOff;
    SbFrame(s, Uncarve(s, q, t), o);
  }

  lemma UncarveOwn(s: Tree, q: nat, t: nat, y: Obj)
    requires q in s.sbs && SbOk(s, q) && s.sbs[q].free == AllFree(Count(s, q))
    requires OwnOk(s, y) && (y in s.own ==> y.sb != q)
    ensures OwnOk(Uncarve(s, q, t), y)
  {
    hide ObjOff;
    if y.sb != q && s.sbs[q].parent != InObject(y) { OwnFrame(s, Uncarve(s, q, t), y); }
  }

  lemma UncarveTree(s: Tree, q: nat, t: nat)
    requires TreeInv(s) && q in s.sbs && SbOk(s, q) && s.sbs[q].free == AllFree(Count(s, q))
    ensures TreeInv(Uncarve(s, q, t))
  {
    var s' := Uncarve(s, q, t);
    assert SbOk(s, q);
    UncarvedUnused(s, q);
    hide SbOk, OwnOk, ObjOff;
    forall v ensures VolumeOk(s', v) { assert VolumeOk(s, v); }
    forall o | o in s'.sbs ensures SbOk(s', o) { UncarveSb(s, q, t, o); }
    forall y ensures OwnOk(s', y) { UncarveOwn(s, q, t, y); }
  }
}
