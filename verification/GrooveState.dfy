/** Shared state of the groove data allocator and its structural invariant:
    superblocks nest in objects of their parent class down from volumes. */
module GrooveState {
  import opened Basics
  import opened GrooveConfig

  /** An object is named by the offset of its superblock and its index there. */
  datatype Obj = Obj(sb: nat, idx: nat)

  datatype Parent = InVolume(v: nat) | InObject(x: Obj)

  /** A superblock header block: class of its objects, where it lives, the
      free_objs bit field as the set of its one bits, and the info word that
      holds the next offset while the superblock is on an inactive stack. */
  datatype Superblock = Superblock(szc: nat, parent: Parent, free: set<nat>, info: nat)

  /** An inactive stack. The shared word is (ver, off); ops counts successful
      operations and items lists the stacked superblocks bottom first. Neither
      is in memory: they are what the word and the info links stand for. */
  datatype Stack = Stack(ver: nat, off: nat, ops: nat, items: seq<nat>)

  /** Where a superblock is in circulation. */
  datatype Place = ActiveSlot(szc: nat, cgroup: nat) | InactiveStack(szc: nat, depth: nat) | Hand(t: nat)

  /** Who has an object that is not free. */
  datatype Owner = User | Child | Thread(t: nat)

  datatype VolumeOwner = Pooled | Rooted | HeldBy(t: nat)

  /** A word loaded from an inactive stack, with the operation count at the load. */
  datatype View = View(ver: nat, off: nat, ops: nat)

  datatype Pc =
    | Idle
    | SlotTest
    | SlotTake
    | PopLoad
    | PopRead(view: View)
    | PopCas(view: View, next: nat)
    | NewSuperblock
    | FormatVolume
    | PickObject
    | TakeObject(i: nat)
    | SlotPut
    | PushLoad
    | PushLink(view: View)
    | PushCas(view: View)
    | GotObject
    | FreeObject
    | CheckPopped
    | ReleaseVolume

  /** One thread: its next atomic operation, whether it is in alloc or free, the
      size class it works on, the classes alloc still has to carve out of the
      object it is fetching, and what it exclusively has (hand 0 is none). */
  datatype Local = Local(pc: Pc, allocating: bool, szc: nat, rest: seq<nat>,
                         hand: nat, obj: Option<Obj>, vol: Option<nat>)

  const IDLE: Local := Local(Idle, false, 0, [], 0, None, None)

  /** Memory the superblocks occupy. own is bookkeeping: who has each object
      whose bit is clear. */
  datatype Tree = Tree(cfg: seq<SzcCfg>, sbs: map<nat, Superblock>, own: map<Obj, Owner>, vols: map<nat, VolumeOwner>)

  /** loc is bookkeeping too: the place of each superblock in circulation. */
  datatype State = State(tree: Tree, active: map<(nat, nat), nat>, stacks: seq<Stack>,
                         loc: map<nat, Place>, th: map<nat, Local>)

  function Slot(s: State, k: (nat, nat)): nat {
    if k in s.active then s.active[k] else 0
  }

  function Th(s: State, t: nat): Local {
    if t in s.th then s.th[t] else IDLE
  }

  function RootOff(v: nat): nat {
    VolumeOff(v) + BLOCK
  }

  function Footprint(s: Tree, sb: nat): nat
    requires sb in s.sbs && s.sbs[sb].szc < |s.cfg|
  {
    s.cfg[s.sbs[sb].szc].objFootprint
  }

  function Count(s: Tree, sb: nat): nat
    requires sb in s.sbs && s.sbs[sb].szc < |s.cfg|
  {
    s.cfg[s.sbs[sb].szc].objCnt
  }

  /** Offset of object idx of a superblock. */
  function ObjOff(s: Tree, x: Obj): (off: nat)
    requires x.sb in s.sbs && s.sbs[x.sb].szc < |s.cfg|
    ensures x.sb + BLOCK <= off
  {
    x.sb + BLOCK + x.idx * Footprint(s, x.sb)
  }

  function SbEnd(s: Tree, sb: nat): (end: nat)
    requires sb in s.sbs && s.sbs[sb].szc < |s.cfg|
    ensures sb + BLOCK <= end
  {
    sb + BLOCK + Count(s, sb) * Footprint(s, sb)
  }

  ghost predicate ParentOk(s: Tree, o: nat)
    requires o in s.sbs && s.sbs[o].szc < |s.cfg|
  {
    match s.sbs[o].parent
    case InVolume(v) =>
      s.sbs[o].szc == |s.cfg| - 1 && o == RootOff(v) && v in s.vols && s.vols[v] == Rooted
    case InObject(x) =>
      && x.sb in s.sbs
      && s.sbs[x.sb].szc < |s.cfg|
      && s.cfg[s.sbs[o].szc].parentSzc == s.sbs[x.sb].szc
      && x in s.own && s.own[x] == Child
      && o == ObjOff(s, x)
  }

  ghost predicate SbOk(s: Tree, o: nat)
    requires o in s.sbs
  {
    && 0 < o
    && s.sbs[o].szc < |s.cfg|
    && (forall i :: i in s.sbs[o].free ==> i < Count(s, o))
    && ParentOk(s, o)
  }

  predicate IsObject(s: Tree, x: Obj) {
    x.sb in s.sbs && s.sbs[x.sb].szc < |s.cfg| && x.idx < Count(s, x.sb)
  }

  /** An object is accounted for exactly when its bit is clear. */
  ghost predicate OwnOk(s: Tree, x: Obj) {
    && (x in s.own <==> IsObject(s, x) && x.idx !in s.sbs[x.sb].free)
    && (x in s.own && s.own[x] == Child ==> ObjOff(s, x) in s.sbs && s.sbs[ObjOff(s, x)].parent == InObject(x))
  }

  ghost predicate VolumeOk(s: Tree, v: nat) {
    v in s.vols && s.vols[v] == Rooted ==> RootOff(v) in s.sbs && s.sbs[RootOff(v)].parent == InVolume(v)
  }

  ghost predicate TreeInv(s: Tree) {
    && ValidCfg(s.cfg)
    && (forall o :: o in s.sbs ==> SbOk(s, o))
    && (forall x {:trigger x in s.own} {:trigger OwnOk(s, x)} :: OwnOk(s, x))
    && (forall v {:trigger v in s.vols} {:trigger VolumeOk(s, v)} :: VolumeOk(s, v))
  }
}
