/** The lock-free allocator as a step system: any number of threads, one step
    per atomic operation, any interleaving. */
module GrooveAlloc {
  import opened Basics
  import opened GrooveConfig
  import opened GrooveState
  import opened GrooveGeometry
  import opened GrooveTree

  // ----- the inactive stacks

  function Top(items: seq<nat>): nat {
    if items == [] then 0 else items[|items| - 1]
  }

  /** The info word of the superblock at a depth: the offset below it, 0 at the bottom. */
  function Link(items: seq<nat>, depth: nat): nat
    requires depth < |items|
  {
    if depth == 0 then 0 else items[depth - 1]
  }

  predicate StackOk(sbs: map<nat, Superblock>, st: Stack) {
    && st.ver == st.ops % BLOCK
    && st.off == Top(st.items)
    && (forall d: nat :: d < |st.items| ==> st.items[d] in sbs && sbs[st.items[d]].info == Link(st.items, d))
  }

  predicate StackInv(sbs: map<nat, Superblock>, stacks: seq<Stack>) {
    forall z: nat :: z < |stacks| ==> StackOk(sbs, stacks[z])
  }

  // ----- circulation

  predicate At(s: State, p: Place, o: nat) {
    match p
    case ActiveSlot(z, c) => Slot(s, (z, c)) == o
    case InactiveStack(z, d) => z < |s.stacks| && d < |s.stacks[z].items| && s.stacks[z].items[d] == o
    case Hand(t) => Th(s, t).hand == o
  }

  /** A superblock with a free object is in the one place loc says, a place of
      its class; any other is in no place. */
  ghost predicate CircAt(s: State, o: nat) {
    && (o in s.loc <==> o in s.tree.sbs && s.tree.sbs[o].free != {})
    && (o in s.loc ==> At(s, s.loc[o], o))
    && (o in s.loc && s.loc[o].ActiveSlot? ==> s.tree.sbs[o].szc == s.loc[o].szc)
    && (o in s.loc && s.loc[o].InactiveStack? ==> s.tree.sbs[o].szc == s.loc[o].szc)
    && (forall p :: At(s, p, o) ==> o in s.loc && s.loc[o] == p)
  }

  ghost predicate CirculationInv(s: State) {
    forall o :: o != 0 ==> CircAt(s, o)
  }

  /** What a thread has, the bookkeeping says it has. */
  ghost predicate HasOk(s: State, t: nat) {
    && (Th(s, t).obj.Some? ==> Th(s, t).obj.value in s.tree.own && s.tree.own[Th(s, t).obj.value] == Thread(t))
    && (Th(s, t).vol.Some? ==> Th(s, t).vol.value in s.tree.vols && s.tree.vols[Th(s, t).vol.value] == HeldBy(t))
  }

  ghost predicate ObjectHeld(s: State, x: Obj) {
    x in s.tree.own && s.tree.own[x].Thread? ==> Th(s, s.tree.own[x].t).obj == Some(x)
  }

  ghost predicate VolumeHeld(s: State, v: nat) {
    v in s.tree.vols && s.tree.vols[v].HeldBy? ==> Th(s, s.tree.vols[v].t).vol == Some(v)
  }

  ghost predicate HoldingsInv(s: State) {
    && (forall t :: HasOk(s, t))
    && (forall x :: ObjectHeld(s, x))
    && (forall v :: VolumeHeld(s, v))
  }

  // ----- threads

  /** Each class alloc still has to carve lives in objects of the one before. */
  predicate Chain(cfg: seq<SzcCfg>, szc: nat, rest: seq<nat>)
    decreases |rest|
  {
    szc < |cfg| && (rest != [] ==> rest[0] < |cfg| && cfg[rest[0]].parentSzc == szc && Chain(cfg, rest[0], rest[1..]))
  }

  /** A loaded word is still the shared word if nothing succeeded since. */
  predicate ViewOk(st: Stack, w: View) {
    w.ops <= st.ops && w.ver == w.ops % BLOCK && (w.ops == st.ops ==> w.off == st.off)
  }

  predicate Empty(l: Local) {
    l.hand == 0 && l.obj == None && l.vol == None
  }

  predicate HasObject(sbs: map<nat, Superblock>, l: Local) {
    l.obj.Some? && l.obj.value.sb in sbs && sbs[l.obj.value.sb].szc == l.szc
  }

  /** The thread has a superblock of its class, and an object of that class
      exactly while alloc is finishing. */
  predicate Handful(sbs: map<nat, Superblock>, l: Local, withObj: bool) {
    && l.hand in sbs && sbs[l.hand].szc == l.szc
    && l.vol == None
    && (if withObj then HasObject(sbs, l) else l.obj == None)
  }

  predicate PcOk(cfg: seq<SzcCfg>, sbs: map<nat, Superblock>, st: Stack, l: Local) {
    match l.pc
    case Idle => Empty(l)
    case SlotTest => Empty(l) && l.allocating
    case SlotTake => Empty(l) && l.allocating
    case PopLoad => Empty(l)
    case PopRead(w) => Empty(l) && w.off != 0 && ViewOk(st, w)
    case PopCas(w, next) =>
      && Empty(l) && w.off != 0 && ViewOk(st, w)
      && (w.ops == st.ops && st.items != [] ==> next == Link(st.items, |st.items| - 1))
    case NewSuperblock => Empty(l) && l.allocating
    case FormatVolume => l.allocating && l.hand == 0 && l.obj == None && l.vol.Some? && l.szc == |cfg| - 1
    case PickObject => l.allocating && Handful(sbs, l, false)
    case TakeObject(i) => l.allocating && Handful(sbs, l, false) && i in sbs[l.hand].free
    case SlotPut => Handful(sbs, l, l.allocating)
    case PushLoad => Handful(sbs, l, l.allocating)
    case PushLink(w) => Handful(sbs, l, l.allocating)
    case PushCas(w) => Handful(sbs, l, l.allocating) && sbs[l.hand].info == w.off
    case GotObject => l.allocating && l.hand == 0 && l.vol == None && HasObject(sbs, l)
    case FreeObject => !l.allocating && l.hand == 0 && l.vol == None && HasObject(sbs, l)
    case CheckPopped => !l.allocating && Handful(sbs, l, false)
    case ReleaseVolume => !l.allocating && l.hand == 0 && l.obj == None && l.vol.Some?
  }

  predicate LocalOk(cfg: seq<SzcCfg>, sbs: map<nat, Superblock>, stacks: seq<Stack>, l: Local) {
    && |stacks| == |cfg|
    && Chain(cfg, l.szc, if l.allocating then l.rest else [])
    && PcOk(cfg, sbs, stacks[l.szc], l)
  }

  ghost predicate ThreadsInv(s: State) {
    forall t :: LocalOk(s.tree.cfg, s.tree.sbs, s.stacks, Th(s, t))
  }

  ghost predicate Inv(s: State) {
    && TreeInv(s.tree)
    && StackInv(s.tree.sbs, s.stacks)
    && CirculationInv(s)
    && HoldingsInv(s)
    && ThreadsInv(s)
  }

  // ----- steps

  /** What the environment decides: the concurrency group of a slot access, the
      garbage read from a stale offset, and the volume the pool hands out. */
  datatype Choice = Choice(cgroup: nat, junk: nat, vol: nat)

  function SetLocal(s: State, t: nat, l: Local): State {
    s.(th := s.th[t := l])
  }

  /** Where a thread goes when its superblock is back in circulation. */
  function Done(l: Local): Pc {
    if l.allocating then GotObject else Idle
  }

  /** Atomic exchange of the active slot with the superblock in hand. */
  function Exchange(s: State, t: nat, c: nat): State {
    var l := Th(s, t);
    var got := Slot(s, (l.szc, c));
    var loc := if l.hand != 0 then s.loc[l.hand := ActiveSlot(l.szc, c)] else s.loc;
    var pc := if l.pc.SlotTake? then (if got != 0 then PickObject else PopLoad)
              else (if got != 0 then PushLoad else Done(l));
    State(s.tree, s.active[(l.szc, c) := l.hand], s.stacks,
          if got != 0 then loc[got := Hand(t)] else loc,
          s.th[t := l.(hand := got, pc := pc)])
  }

  function DropLast(items: seq<nat>): seq<nat> {
    if items == [] then [] else items[..|items| - 1]
  }

  /** The compare-and-swap of a pop succeeds. */
  function Pop(s: State, t: nat): State
    requires Th(s, t).pc.PopCas? && Th(s, t).szc < |s.stacks|
  {
    var l := Th(s, t);
    var st := s.stacks[l.szc];
    var off := l.pc.view.off;
    State(s.tree, s.active,
          s.stacks[l.szc := PoppedStack(st, l.pc.view, l.pc.next)],
          s.loc[off := Hand(t)],
          s.th[t := l.(hand := off, pc := if l.allocating then PickObject else CheckPopped)])
  }

  /** The compare-and-swap of a push succeeds. */
  function Push(s: State, t: nat): State
    requires Th(s, t).pc.PushCas? && Th(s, t).szc < |s.stacks|
  {
    var l := Th(s, t);
    var st := s.stacks[l.szc];
    State(s.tree, s.active,
          s.stacks[l.szc := PushedStack(st, l.pc.view, l.hand)],
          s.loc[l.hand := InactiveStack(l.szc, |st.items|)],
          s.th[t := l.(hand := 0, pc := Done(l))])
  }

  function LinkInfo(s: State, t: nat): State
    requires Th(s, t).pc.PushLink? && Th(s, t).hand in s.tree.sbs
  {
    var l := Th(s, t);
    s.(tree := SetInfo(s.tree, l.hand, l.pc.view.off), th := s.th[t := l.(pc := PushCas(l.pc.view))])
  }

  /** fetch-and-sub of the picked bit. If it was the last one the superblock is
      full and leaves circulation. */
  function TakeStep(s: State, t: nat): State
    requires Th(s, t).pc.TakeObject? && Th(s, t).hand in s.tree.sbs
  {
    var l := Th(s, t);
    var x := Obj(l.hand, l.pc.i);
    var tree := Take(s.tree, x, t);
    if s.tree.sbs[l.hand].free == {l.pc.i} then
      State(tree, s.active, s.stacks, s.loc - {l.hand}, s.th[t := l.(hand := 0, obj := Some(x), pc := GotObject)])
    else
      State(tree, s.active, s.stacks, s.loc, s.th[t := l.(obj := Some(x), pc := SlotPut)])
  }

  /** fetch-and-add of a freed bit. If the superblock was full, this thread is
      the one to put it back into circulation. If it is now completely free, the
      thread looks for another completely free one to give back. */
  function GiveStep(s: State, t: nat): State
    requires Th(s, t).obj.Some? && Th(s, t).obj.value.sb in s.tree.sbs && Th(s, t).szc < |s.tree.cfg|
  {
    var l := Th(s, t);
    var x := l.obj.value;
    var tree := Give(s.tree, x);
    var before := s.tree.sbs[x.sb].free;
    if before == {} then
      State(tree, s.active, s.stacks, s.loc[x.sb := Hand(t)], s.th[t := l.(hand := x.sb, obj := None, pc := SlotPut)])
    else
      State(tree, s.active, s.stacks, s.loc,
            s.th[t := l.(obj := None, pc := if |before| + 1 == s.tree.cfg[l.szc].objCnt then PopLoad else Idle)])
  }

  /** Alloc formats the object it got as the superblock it needed. */
  function CarveStep(s: State, t: nat): State
    requires Th(s, t).rest != [] && Th(s, t).obj.Some? && Th(s, t).obj.value.sb in s.tree.sbs
    requires s.tree.sbs[Th(s, t).obj.value.sb].szc < |s.tree.cfg| && Th(s, t).rest[0] < |s.tree.cfg|
  {
    var l := Th(s, t);
    var n := ObjOff(s.tree, l.obj.value);
    State(Carve(s.tree, l.obj.value, l.rest[0]), s.active, s.stacks, s.loc[n := Hand(t)],
          s.th[t := l.(hand := n, obj := None, szc := l.rest[0], rest := l.rest[1..], pc := PickObject)])
  }

  function CarveVolumeStep(s: State, t: nat): State
    requires Th(s, t).vol.Some? && 0 < |s.tree.cfg|
  {
    var l := Th(s, t);
    var n := RootOff(l.vol.value);
    State(CarveVolume(s.tree, l.vol.value), s.active, s.stacks, s.loc[n := Hand(t)],
          s.th[t := l.(hand := n, vol := None, pc := PickObject)])
  }

  /** The popped superblock was seen completely free: it is no longer one, and
      the thread goes on to free its object, or return its volume. */
  function UncarveStep(s: State, t: nat): State
    requires Th(s, t).hand in s.tree.sbs
  {
    var l := Th(s, t);
    var tree := Uncarve(s.tree, l.hand, t);
    match s.tree.sbs[l.hand].parent
    case InObject(x) =>
      State(tree, s.active, s.stacks, s.loc - {l.hand},
            s.th[t := l.(hand := 0, obj := Some(x), pc := FreeObject,
                         szc := if l.szc < |s.tree.cfg| then s.tree.cfg[l.szc].parentSzc else 0)])
    case InVolume(v) =>
      State(tree, s.active, s.stacks, s.loc - {l.hand}, s.th[t := l.(hand := 0, vol := Some(v), pc := ReleaseVolume)])
  }

  function AcquireVolumeStep(s: State, t: nat, v: nat): State {
    s.(tree := SetVolume(s.tree, v, HeldBy(t)), th := s.th[t := Th(s, t).(vol := Some(v), pc := FormatVolume)])
  }

  function ReleaseVolumeStep(s: State, t: nat): State
    requires Th(s, t).vol.Some?
  {
    s.(tree := SetVolume(s.tree, Th(s, t).vol.value, Pooled), th := s.th[t := Th(s, t).(vol := None, pc := Idle)])
  }

  /** Alloc returns its object to the caller. */
  function ReturnStep(s: State, t: nat): State
    requires Th(s, t).obj.Some?
  {
    s.(tree := SetOwner(s.tree, Th(s, t).obj.value, User), th := s.th[t := Th(s, t).(obj := None, pc := Idle)])
  }

  /** A caller hands a live allocation to free. */
  function BeginFreeStep(s: State, t: nat, x: Obj): State
    requires x.sb in s.tree.sbs
  {
    s.(tree := SetOwner(s.tree, x, Thread(t)),
       th := s.th[t := Th(s, t).(obj := Some(x), allocating := false, szc := s.tree.sbs[x.sb].szc, pc := FreeObject)])
  }

  // ----- circulation is kept

  lemma ExchangeAt(s: State, t: nat, c: nat, o: nat)
    requires o != 0 && CircAt(s, o)
    requires Th(s, t).hand == o ==> o in s.loc && s.tree.sbs[o].szc == Th(s, t).szc
    ensures CircAt(Exchange(s, t, c), o)
  {
    var s' := Exchange(s, t, c);
    var l := Th(s, t);
    assert At(s, Hand(t), l.hand) && At(s, ActiveSlot(l.szc, c), Slot(s, (l.szc, c)));
    assert At(s', Hand(t), Slot(s, (l.szc, c))) && At(s', ActiveSlot(l.szc, c), l.hand);
    forall p | p != Hand(t) && p != ActiveSlot(l.szc, c)
      ensures At(s', p, o) == At(s, p, o)
    {
    }
  }

  lemma PopAt(s: State, t: nat, o: nat)
    requires o != 0 && CircAt(s, o)
    requires Th(s, t).pc.PopCas? && Th(s, t).szc < |s.stacks| && Th(s, t).hand == 0
    requires s.stacks[Th(s, t).szc].items != [] && Th(s, t).pc.view.off == Top(s.stacks[Th(s, t).szc].items)
    ensures CircAt(Pop(s, t), o)
  {
    var s' := Pop(s, t);
    var l := Th(s, t);
    var d := |s.stacks[l.szc].items| - 1;
    assert At(s, InactiveStack(l.szc, d), l.pc.view.off) && At(s', Hand(t), l.pc.view.off);
    assert !At(s', InactiveStack(l.szc, d), o);
    forall p | p != Hand(t) && p != InactiveStack(l.szc, d)
      ensures At(s', p, o) == At(s, p, o)
    {
    }
  }

  lemma PushAt(s: State, t: nat, o: nat)
    requires o != 0 && CircAt(s, o)
    requires Th(s, t).pc.PushCas? && Th(s, t).szc < |s.stacks|
    requires Th(s, t).hand == o ==> o in s.loc && s.tree.sbs[o].szc == Th(s, t).szc
    ensures CircAt(Push(s, t), o)
  {
    var s' := Push(s, t);
    var l := Th(s, t);
    var d := |s.stacks[l.szc].items|;
    assert At(s, Hand(t), l.hand) && At(s', InactiveStack(l.szc, d), l.hand);
    assert !At(s, InactiveStack(l.szc, d), o);
    forall p | p != Hand(t) && p != InactiveStack(l.szc, d)
      ensures At(s', p, o) == At(s, p, o)
    {
    }
  }

  /** A step that changes no place keeps circulation where the superblock keeps
      its class and whether it has a free object. */
  lemma SameAt(s: State, s': State, o: nat)
    requires CircAt(s, o) && s'.active == s.active && s'.stacks == s.stacks
    requires forall t :: Th(s', t).hand == o <==> Th(s, t).hand == o
    requires o in s.loc <==> o in s'.loc
    requires o in s.loc ==> s'.loc[o] == s.loc[o]
    requires (o in s'.tree.sbs && s'.tree.sbs[o].free != {}) <==> (o in s.tree.sbs && s.tree.sbs[o].free != {})
    requires o in s.tree.sbs && o in s'.tree.sbs ==> s'.tree.sbs[o].szc == s.tree.sbs[o].szc
    ensures CircAt(s', o)
  {
    forall p ensures At(s', p, o) == At(s, p, o) { }
  }

  /** A superblock enters circulation in a thread's hands. */
  lemma EnterAt(s: State, s': State, t: nat, o: nat)
    requires CircAt(s, o) && s'.active == s.active && s'.stacks == s.stacks
    requires o in s.tree.sbs ==> s.tree.sbs[o].free == {}
    requires o in s'.loc && s'.loc[o] == Hand(t) && o in s'.tree.sbs && s'.tree.sbs[o].free != {}
    requires Th(s', t).hand == o && forall u :: u != t ==> Th(s', u).hand == Th(s, u).hand
    ensures CircAt(s', o)
  {
    assert At(s', Hand(t), o);
    forall p | p != Hand(t) ensures !At(s', p, o) { assert At(s', p, o) == At(s, p, o); }
  }

  /** A superblock leaves circulation from a thread's hands. */
  lemma LeaveAt(s: State, s': State, t: nat, o: nat)
    requires CircAt(s, o) && s'.active == s.active && s'.stacks == s.stacks
    requires o !in s'.loc && (o in s'.tree.sbs ==> s'.tree.sbs[o].free == {})
    requires Th(s, t).hand == o && Th(s', t).hand != o && forall u :: u != t ==> Th(s', u).hand == Th(s, u).hand
    ensures CircAt(s', o)
  {
    assert At(s, Hand(t), o);
    forall p ensures !At(s', p, o) { assert p == Hand(t) || At(s', p, o) == At(s, p, o); }
  }

  // ----- frames

  lemma StackFrame(sbs: map<nat, Superblock>, sbs': map<nat, Superblock>, stacks: seq<Stack>, h: nat)
    requires StackInv(sbs, stacks)
    requires forall o :: o in sbs && o != h ==> o in sbs' && sbs'[o].info == sbs[o].info
    requires forall z: nat, d: nat :: z < |stacks| && d < |stacks[z].items| ==> stacks[z].items[d] != h
    ensures StackInv(sbs', stacks)
  {
    forall z: nat | z < |stacks| ensures StackOk(sbs', stacks[z]) { assert StackOk(sbs, stacks[z]); }
  }

  lemma StackKeep(sbs: map<nat, Superblock>, sbs': map<nat, Superblock>, stacks: seq<Stack>)
    requires StackInv(sbs, stacks)
    requires forall o :: o in sbs ==> o in sbs' && sbs'[o].info == sbs[o].info
    ensures StackInv(sbs', stacks)
  {
    forall z: nat | z < |stacks| ensures StackOk(sbs', stacks[z]) { assert StackOk(sbs, stacks[z]); }
  }

  /** What another thread relies on: its superblock keeps class and link and
      loses no free object, its object's superblock stays, and its stack has
      either not changed or has a higher operation count. */
  lemma LocalFrame(cfg: seq<SzcCfg>, sbs: map<nat, Superblock>, stacks: seq<Stack>, sbs': map<nat, Superblock>,
          stacks': seq<Stack>, l: Local)
    requires LocalOk(cfg, sbs, stacks, l) && |stacks'| == |stacks|
    requires l.hand in sbs ==>
        l.hand in sbs' && sbs'[l.hand].szc == sbs[l.hand].szc && sbs'[l.hand].info == sbs[l.hand].info
                               && sbs[l.hand].free <= sbs'[l.hand].free
    requires l.obj.Some? && l.obj.value.sb in sbs ==>
        l.obj.value.sb in sbs' && sbs'[l.obj.value.sb].szc == sbs[l.obj.value.sb].szc
    requires forall z: nat :: z < |stacks| ==> stacks'[z] == stacks[z] || stacks[z].ops < stacks'[z].ops
    ensures LocalOk(cfg, sbs', stacks', l)
  {
  }

  lemma HandsDistinct(s: State, t: nat, u: nat)
    requires CircAt(s, Th(s, t).hand) && t != u
    ensures Th(s, u).hand != Th(s, t).hand
  {
    assert At(s, Hand(t), Th(s, t).hand) && At(s, Hand(u), Th(s, u).hand);
  }

  /** Parts of the invariant, so that a proof sees only the parts it needs. */
  lemma LocalKnown(s: State, t: nat)
    requires Inv(s)
    ensures LocalOk(s.tree.cfg, s.tree.sbs, s.stacks, Th(s, t))
    ensures Th(s, t).szc < |s.stacks| == |s.tree.cfg| && StackOk(s.tree.sbs, s.stacks[Th(s, t).szc])
  {
    hide TreeInv, CirculationInv, HoldingsInv, StackOk, PcOk;
    assert LocalOk(s.tree.cfg, s.tree.sbs, s.stacks, Th(s, t));
  }

  lemma CircKnown(s: State, o: nat)
    requires Inv(s) && o != 0
    ensures CircAt(s, o)
  {
    hide TreeInv, StackInv, HoldingsInv, ThreadsInv, CircAt;
  }

  lemma HoldingsKnown(s: State, t: nat, x: Obj, v: nat)
    requires Inv(s)
    ensures HasOk(s, t) && ObjectHeld(s, x) && VolumeHeld(s, v)
  {
    hide TreeInv, StackInv, CirculationInv, ThreadsInv, HasOk, ObjectHeld, VolumeHeld;
  }

  lemma TreeKnown(s: State)
    requires Inv(s)
    ensures TreeInv(s.tree) && StackInv(s.tree.sbs, s.stacks)
  {
    hide TreeInv, StackInv, CirculationInv, HoldingsInv, ThreadsInv;
  }

  lemma OwnKnown(s: State, x: Obj)
    requires Inv(s)
    ensures OwnOk(s.tree, x)
  {
    hide StackInv, CirculationInv, HoldingsInv, ThreadsInv, SbOk;
  }

  lemma CfgKnown(s: State, z: nat)
    requires Inv(s)
    ensures ValidCfg(s.tree.cfg) && (z < |s.tree.cfg| ==> ValidRow(s.tree.cfg, z))
  {
    hide StackInv, CirculationInv, HoldingsInv, ThreadsInv, SbOk, OwnOk, VolumeOk;
  }

  lemma Assemble(s: State)
    requires TreeInv(s.tree) && StackInv(s.tree.sbs, s.stacks) && CirculationInv(s) && HoldingsInv(s) && ThreadsInv(s)
    ensures Inv(s)
  {
    hide TreeInv, StackInv, CirculationInv, HoldingsInv, ThreadsInv;
  }

  lemma SbKnown(s: State, o: nat)
    requires Inv(s) && o in s.tree.sbs
    ensures o != 0 && SbOk(s.tree, o)
  {
    hide StackInv, CirculationInv, HoldingsInv, ThreadsInv;
    assert SbOk(s.tree, o);
  }

  /** A superblock in a thread's hands has a free object, and loc says so. */
  lemma HandKnown(s: State, t: nat)
    requires Inv(s) && Th(s, t).hand in s.tree.sbs
    ensures var h := Th(s, t).hand;
            h != 0 && CircAt(s, h) && h in s.loc && s.loc[h] == Hand(t) && s.tree.sbs[h].free != {}
  {
    hide Inv;
    var h := Th(s, t).hand;
    SbKnown(s, h);
    CircKnown(s, h);
    assert At(s, Hand(t), h);
  }

  /** A superblock in a thread's hands is on no stack. */
  lemma HandOffStacks(s: State, t: nat)
    requires CircAt(s, Th(s, t).hand)
    ensures forall z: nat, d: nat :: z < |s.stacks| && d < |s.stacks[z].items| ==> s.stacks[z].items[d] != Th(s, t).hand
  {
    forall z: nat, d: nat | z < |s.stacks| && d < |s.stacks[z].items|
      ensures s.stacks[z].items[d] != Th(s, t).hand
    {
      assert At(s, Hand(t), Th(s, t).hand) && At(s, InactiveStack(z, d), s.stacks[z].items[d]);
    }
  }

  /** A step of thread t that moves at most its own object and volume keeps the
      books. */
  lemma HoldingsMove(s: State, s': State, t: nat)
    requires Inv(s) && (forall u :: u != t ==> Th(s', u) == Th(s, u)) && HasOk(s', t)
    requires forall x :: x in s'.tree.own && s'.tree.own[x].Thread? ==>
      || (s'.tree.own[x] == Thread(t) && Th(s', t).obj == Some(x))
      || (x in s.tree.own && s.tree.own[x] == s'.tree.own[x]
          && (s'.tree.own[x].t == t && Th(s, t).obj == Some(x) ==> Th(s', t).obj == Some(x)))
    requires forall x :: x in s.tree.own && s.tree.own[x].Thread? && s.tree.own[x].t != t ==>
        x in s'.tree.own && s'.tree.own[x] == s.tree.own[x]
    requires forall v :: v in s'.tree.vols && s'.tree.vols[v].HeldBy? ==>
      || (s'.tree.vols[v] == HeldBy(t) && Th(s', t).vol == Some(v))
      || (v in s.tree.vols && s.tree.vols[v] == s'.tree.vols[v]
          && (s'.tree.vols[v].t == t && Th(s, t).vol == Some(v) ==> Th(s', t).vol == Some(v)))
    requires forall v :: v in s.tree.vols && s.tree.vols[v].HeldBy? && s.tree.vols[v].t != t ==>
        v in s'.tree.vols && s'.tree.vols[v] == s.tree.vols[v]
    ensures HoldingsInv(s')
  {
    hide Inv;
    forall u ensures HasOk(s', u) { HoldingsKnown(s, u, Obj(0, 0), 0); }
    forall x ensures ObjectHeld(s', x) { HoldingsKnown(s, t, x, 0); }
    forall v ensures VolumeHeld(s', v) { HoldingsKnown(s, t, Obj(0, 0), v); }
  }

  /** A step of thread t that changes no superblock but the one in its hands,
      other than by freeing objects, disturbs no other thread. */
  lemma LocalsMove(s: State, s': State, t: nat)
    requires Inv(s) && (forall u :: u != t ==> Th(s', u) == Th(s, u))
    requires s'.tree.cfg == s.tree.cfg && |s'.stacks| == |s.stacks|
    requires LocalOk(s'.tree.cfg, s'.tree.sbs, s'.stacks, Th(s', t))
    requires forall o :: o in s.tree.sbs && o != Th(s, t).hand ==>
      o in s'.tree.sbs && s'.tree.sbs[o].szc == s.tree.sbs[o].szc && s'.tree.sbs[o].info == s.tree.sbs[o].info
      && s.tree.sbs[o].free <= s'.tree.sbs[o].free
    requires Th(s, t).hand in s.tree.sbs ==>
      if Th(s, t).hand in s'.tree.sbs then s'.tree.sbs[Th(s, t).hand].szc == s.tree.sbs[Th(s, t).hand].szc
      else forall x :: x in s.tree.own ==> x.sb != Th(s, t).hand
    requires forall z: nat :: z < |s.stacks| ==> s'.stacks[z] == s.stacks[z] || s.stacks[z].ops < s'.stacks[z].ops
    ensures ThreadsInv(s')
  {
    hide Inv, LocalOk;
    forall u ensures LocalOk(s'.tree.cfg, s'.tree.sbs, s'.stacks, Th(s', u)) {
      LocalKnown(s, u);
      if u != t {
        if Th(s, t).hand in s.tree.sbs { HandKnown(s, t); HandsDistinct(s, t, u); }
        HoldingsKnown(s, u, Obj(0, 0), 0);
        LocalFrame(s.tree.cfg, s.tree.sbs, s.stacks, s'.tree.sbs, s'.stacks, Th(s, u));
      }
    }
  }

  // ----- steps that only move a thread along

  lemma SetLocalInv(s: State, t: nat, l: Local)
    requires Inv(s) && LocalOk(s.tree.cfg, s.tree.sbs, s.stacks, l)
    requires l.hand == Th(s, t).hand && l.obj == Th(s, t).obj && l.vol == Th(s, t).vol
    ensures Inv(SetLocal(s, t, l))
  {
    hide Inv, TreeInv, StackInv, CirculationInv, HoldingsInv, ThreadsInv, LocalOk;
    var s' := SetLocal(s, t, l);
    TreeKnown(s);
    SetLocalCirc(s, t, l);
    SetLocalHoldings(s, t, l);
    LocalsMove(s, s', t);
    Assemble(s');
  }

  lemma SetLocalHoldings(s: State, t: nat, l: Local)
    requires Inv(s) && l.obj == Th(s, t).obj && l.vol == Th(s, t).vol
    ensures HoldingsInv(SetLocal(s, t, l))
  {
    hide Inv;
    var s' := SetLocal(s, t, l);
    forall u ensures HasOk(s', u) { HoldingsKnown(s, u, Obj(0, 0), 0); }
    forall x ensures ObjectHeld(s', x) { HoldingsKnown(s, t, x, 0); }
    forall v ensures VolumeHeld(s', v) { HoldingsKnown(s, t, Obj(0, 0), v); }
  }

  lemma SetLocalCirc(s: State, t: nat, l: Local)
    requires Inv(s) && l.hand == Th(s, t).hand
    ensures CirculationInv(SetLocal(s, t, l))
  {
    hide Inv, CircAt;
    forall o | o != 0 ensures CircAt(SetLocal(s, t, l), o) { CircKnown(s, o); SameAt(s, SetLocal(s, t, l), o); }
  }

  /** The exchanging thread: what it puts in and takes out is of its class. */
  lemma ExchangeLocal(s: State, t: nat, c: nat)
    requires Inv(s) && (Th(s, t).pc.SlotTake? || Th(s, t).pc.SlotPut?)
    ensures var h := Th(s, t).hand; h != 0 ==> h in s.loc && h in s.tree.sbs && s.tree.sbs[h].szc == Th(s, t).szc
    ensures LocalOk(s.tree.cfg, s.tree.sbs, s.stacks, Th(Exchange(s, t, c), t))
  {
    hide Inv;
    var l := Th(s, t);
    var got := Slot(s, (l.szc, c));
    LocalKnown(s, t);
    if l.hand != 0 { HandKnown(s, t); }
    if got != 0 { CircKnown(s, got); assert At(s, ActiveSlot(l.szc, c), got); }
  }

  // ----- the stacks: a compare-and-swap moves exactly one superblock

  /** With fewer than 512 successful operations since the load, equal tags mean
      no operation at all. */
  lemma TagMatch(now: nat, then_: nat)
    requires then_ <= now < then_ + BLOCK && now % BLOCK == then_ % BLOCK
    ensures now == then_
  {
  }

  function PoppedStack(st: Stack, w: View, next: nat): Stack {
    Stack((w.ver + 1) % BLOCK, next, st.ops + 1, DropLast(st.items))
  }

  function PushedStack(st: Stack, w: View, h: nat): Stack {
    Stack((w.ver + 1) % BLOCK, h, st.ops + 1, st.items + [h])
  }

  /** A timely pop that matches removes exactly the top superblock, whatever
      other threads did since its load. */
  lemma PopIsPop(sbs: map<nat, Superblock>, st: Stack, w: View, next: nat)
    requires StackOk(sbs, st) && ViewOk(st, w) && w.off != 0
    requires w.ops == st.ops && st.items != [] ==> next == Link(st.items, |st.items| - 1)
    requires st.ver == w.ver && st.off == w.off && st.ops < w.ops + BLOCK
    ensures st.items != [] && w.off == Top(st.items)
    ensures PoppedStack(st, w, next).items == st.items[..|st.items| - 1]
    ensures StackOk(sbs, PoppedStack(st, w, next))
  {
    TagMatch(st.ops, w.ops);
    PoppedOk(sbs, st, w, next);
    hide StackOk;
    assert Link(st.items, |st.items| - 1) == Top(DropLast(st.items));
  }

  /** Popping leaves a proper stack exactly when the offset swapped in is the one below
      the top. */
  lemma PoppedOk(sbs: map<nat, Superblock>, st: Stack, w: View, next: nat)
    requires StackOk(sbs, st) && w.off != 0 && st.ver == w.ver && st.off == w.off
    ensures st.items != [] && w.off == Top(st.items)
    ensures StackOk(sbs, PoppedStack(st, w, next)) <==> next == Top(DropLast(st.items))
  {
    NextTag(st.ops);
    var items := DropLast(st.items);
    assert forall d: nat | d < |items| :: items[d] == st.items[d] && Link(items, d) == Link(st.items, d);
  }

  lemma NextTag(ops: nat)
    ensures (ops % BLOCK + 1) % BLOCK == (ops + 1) % BLOCK
  {
  }

  /** A push that matches adds exactly its superblock on top, with no proviso:
      the link it wrote is the offset it compared. */
  lemma PushIsPush(sbs: map<nat, Superblock>, st: Stack, w: View, h: nat)
    requires StackOk(sbs, st) && h in sbs && sbs[h].info == w.off
    requires st.ver == w.ver && st.off == w.off
    ensures PushedStack(st, w, h).items == st.items + [h] && PushedStack(st, w, h).off == h
    ensures StackOk(sbs, PushedStack(st, w, h))
  {
    var items := st.items + [h];
    forall d: nat | d < |items| ensures items[d] in sbs && sbs[items[d]].info == Link(items, d) {
      if d < |st.items| { assert items[d] == st.items[d]; }
    }
  }

  /** The guard of a pop's compare-and-swap. */
  predicate PopMatches(s: State, t: nat) {
    var l := Th(s, t);
    l.pc.PopCas? && l.szc < |s.stacks| && s.stacks[l.szc].ver == l.pc.view.ver && s.stacks[l.szc].off == l.pc.view.off
  }

  predicate PushMatches(s: State, t: nat) {
    var l := Th(s, t);
    l.pc.PushCas? && l.szc < |s.stacks| && s.stacks[l.szc].ver == l.pc.view.ver && s.stacks[l.szc].off == l.pc.view.off
  }

  /** Fewer than 512 successful operations on the stack since this pop loaded
      the word it is about to swap. */
  predicate PopTimely(s: State, t: nat)
    requires PopMatches(s, t)
  {
    s.stacks[Th(s, t).szc].ops < Th(s, t).pc.view.ops + BLOCK
  }

  /** What this pop read below the top is what is below the top now. */
  predicate PopCurrent(s: State, t: nat)
    requires PopMatches(s, t)
  {
    Th(s, t).pc.next == Top(DropLast(s.stacks[Th(s, t).szc].items))
  }

  lemma TimelyCurrent(s: State, t: nat)
    requires Inv(s) && PopMatches(s, t) && PopTimely(s, t)
    ensures PopCurrent(s, t)
  {
    hide Inv;
    LocalKnown(s, t);
    PopIsPop(s.tree.sbs, s.stacks[Th(s, t).szc], Th(s, t).pc.view, Th(s, t).pc.next);
  }

  lemma PopStack(s: State, t: nat)
    requires Inv(s) && PopMatches(s, t)
    ensures StackOk(s.tree.sbs, Pop(s, t).stacks[Th(s, t).szc]) <==> PopCurrent(s, t)
    ensures Empty(Th(s, t)) && Th(s, t).pc.view.off != 0
    ensures s.stacks[Th(s, t).szc].items != [] && Th(s, t).pc.view.off == Top(s.stacks[Th(s, t).szc].items)
  {
    hide Inv;
    LocalKnown(s, t);
    PoppedOk(s.tree.sbs, s.stacks[Th(s, t).szc], Th(s, t).pc.view, Th(s, t).pc.next);
  }

  /** The popping thread: the superblock it took is of its class. */
  lemma PopLocal(s: State, t: nat)
    requires Inv(s) && PopMatches(s, t)
    ensures LocalOk(s.tree.cfg, s.tree.sbs, Pop(s, t).stacks, Th(Pop(s, t), t))
  {
    hide Inv, StackOk;
    var off := Th(s, t).pc.view.off;
    PopStack(s, t);
    LocalKnown(s, t);
    CircKnown(s, off);
    assert off in s.tree.sbs && s.tree.sbs[off].szc == Th(s, t).szc by {
      assert At(s, InactiveStack(Th(s, t).szc, |s.stacks[Th(s, t).szc].items| - 1), off);
    }
    hide At, CircAt;
  }

  lemma PushLocal(s: State, t: nat)
    requires Inv(s) && PushMatches(s, t)
    ensures LocalOk(s.tree.cfg, s.tree.sbs, Push(s, t).stacks, Th(Push(s, t), t))
    ensures StackOk(s.tree.sbs, Push(s, t).stacks[Th(s, t).szc])
    ensures Th(s, t).hand != 0 && Th(s, t).hand in s.loc && Th(s, t).hand in s.tree.sbs
    ensures s.tree.sbs[Th(s, t).hand].szc == Th(s, t).szc
  {
    hide Inv, StackOk;
    LocalKnown(s, t);
    HandKnown(s, t);
    PushIsPush(s.tree.sbs, s.stacks[Th(s, t).szc], Th(s, t).pc.view, Th(s, t).hand);
  }

  lemma ExchangeCirc(s: State, t: nat, c: nat)
    requires Inv(s) && (Th(s, t).pc.SlotTake? || Th(s, t).pc.SlotPut?)
    ensures CirculationInv(Exchange(s, t, c))
  {
    hide Inv, CircAt, LocalOk;
    var s' := Exchange(s, t, c);
    ExchangeLocal(s, t, c);
    forall o | o != 0 ensures CircAt(s', o) { CircKnown(s, o); ExchangeAt(s, t, c, o); }
  }

  lemma ExchangeHoldings(s: State, t: nat, c: nat)
    requires Inv(s) && (Th(s, t).pc.SlotTake? || Th(s, t).pc.SlotPut?)
    ensures HoldingsInv(Exchange(s, t, c))
  {
    hide Inv, HoldingsInv, LocalOk;
    HoldingsKnown(s, t, Obj(0, 0), 0);
    HoldingsMove(s, Exchange(s, t, c), t);
  }

  lemma ExchangeInv(s: State, t: nat, c: nat)
    requires Inv(s) && (Th(s, t).pc.SlotTake? || Th(s, t).pc.SlotPut?)
    ensures Inv(Exchange(s, t, c))
  {
    hide Inv, TreeInv, StackInv, CirculationInv, HoldingsInv, ThreadsInv, LocalOk;
    var s' := Exchange(s, t, c);
    TreeKnown(s);
    ExchangeLocal(s, t, c);
    ExchangeCirc(s, t, c);
    ExchangeHoldings(s, t, c);
    LocalsMove(s, s', t);
    Assemble(s');
  }

  lemma StackReplace(sbs: map<nat, Superblock>, stacks: seq<Stack>, z: nat, st: Stack)
    requires StackInv(sbs, stacks) && z < |stacks| && StackOk(sbs, st)
    ensures StackInv(sbs, stacks[z := st])
  {
  }

  lemma PopCirc(s: State, t: nat)
    requires Inv(s) && PopMatches(s, t)
    ensures CirculationInv(Pop(s, t))
  {
    hide Inv, CircAt, LocalOk;
    var s' := Pop(s, t);
    PopStack(s, t);
    forall o | o != 0 ensures CircAt(s', o) { CircKnown(s, o); PopAt(s, t, o); }
  }

  lemma PopHoldings(s: State, t: nat)
    requires Inv(s) && PopMatches(s, t)
    ensures HoldingsInv(Pop(s, t))
  {
    hide Inv, HoldingsInv, LocalOk;
    HoldingsKnown(s, t, Obj(0, 0), 0);
    HoldingsMove(s, Pop(s, t), t);
  }

  /** A pop that matches keeps the invariant exactly when what it read is current. */
  lemma PopInv(s: State, t: nat)
    requires Inv(s) && PopMatches(s, t)
    ensures Inv(Pop(s, t)) <==> PopCurrent(s, t)
  {
    hide Inv, TreeInv, StackInv, CirculationInv, HoldingsInv, ThreadsInv, LocalOk, StackOk;
    var s' := Pop(s, t);
    PopStack(s, t);
    if PopCurrent(s, t) {
      TreeKnown(s);
      PopLocal(s, t);
      StackReplace(s.tree.sbs, s.stacks, Th(s, t).szc, s'.stacks[Th(s, t).szc]);
      PopCirc(s, t);
      PopHoldings(s, t);
      LocalsMove(s, s', t);
      Assemble(s');
    } else if Inv(s') {
      StackKnown(s', Th(s, t).szc);
    }
  }

  lemma StackKnown(s: State, z: nat)
    requires Inv(s) && z < |s.stacks|
    ensures StackOk(s.tree.sbs, s.stacks[z])
  {
  }

  lemma PushCirc(s: State, t: nat)
    requires Inv(s) && PushMatches(s, t)
    ensures CirculationInv(Push(s, t))
  {
    hide Inv, CircAt, LocalOk;
    var s' := Push(s, t);
    PushLocal(s, t);
    forall o | o != 0 ensures CircAt(s', o) { CircKnown(s, o); PushAt(s, t, o); }
  }

  lemma PushHoldings(s: State, t: nat)
    requires Inv(s) && PushMatches(s, t)
    ensures HoldingsInv(Push(s, t))
  {
    hide Inv, HoldingsInv, LocalOk;
    HoldingsKnown(s, t, Obj(0, 0), 0);
    HoldingsMove(s, Push(s, t), t);
  }

  lemma PushInv(s: State, t: nat)
    requires Inv(s) && PushMatches(s, t)
    ensures Inv(Push(s, t))
  {
    hide Inv, TreeInv, StackInv, CirculationInv, HoldingsInv, ThreadsInv, LocalOk;
    var s' := Push(s, t);
    TreeKnown(s);
    PushLocal(s, t);
    StackReplace(s.tree.sbs, s.stacks, Th(s, t).szc, s'.stacks[Th(s, t).szc]);
    PushCirc(s, t);
    PushHoldings(s, t);
    LocalsMove(s, s', t);
    Assemble(s');
  }

  lemma LinkInfoCirc(s: State, t: nat)
    requires Inv(s) && Th(s, t).pc.PushLink? && Th(s, t).hand in s.tree.sbs
    ensures CirculationInv(LinkInfo(s, t))
  {
    hide Inv, CircAt, ObjOff;
    var s' := LinkInfo(s, t);
    hide LocalOk;
    forall o | o != 0 ensures CircAt(s', o) { CircKnown(s, o); SameAt(s, s', o); }
  }

  lemma LinkInfoHoldings(s: State, t: nat)
    requires Inv(s) && Th(s, t).pc.PushLink? && Th(s, t).hand in s.tree.sbs
    ensures HoldingsInv(LinkInfo(s, t))
  {
    hide Inv, HoldingsInv, ObjOff;
    hide LocalOk;
    HoldingsKnown(s, t, Obj(0, 0), 0);
    HoldingsMove(s, LinkInfo(s, t), t);
  }

  lemma LinkInfoLocal(s: State, t: nat)
    requires Inv(s) && Th(s, t).pc.PushLink? && Th(s, t).hand in s.tree.sbs
    ensures var s' := LinkInfo(s, t); LocalOk(s'.tree.cfg, s'.tree.sbs, s'.stacks, Th(s', t))
  {
    hide Inv, ObjOff, StackOk, SbOk;
    LocalKnown(s, t);
  }

  lemma LinkInfoThreads(s: State, t: nat)
    requires Inv(s) && Th(s, t).pc.PushLink? && Th(s, t).hand in s.tree.sbs
    ensures ThreadsInv(LinkInfo(s, t))
  {
    hide Inv, ObjOff, ThreadsInv, LocalOk, SbOk, StackOk;
    LocalKnown(s, t);
    LinkInfoLocal(s, t);
    LocalsMove(s, LinkInfo(s, t), t);
  }

  lemma LinkInfoInv(s: State, t: nat)
    requires Inv(s) && Th(s, t).pc.PushLink? && Th(s, t).hand in s.tree.sbs
    ensures Inv(LinkInfo(s, t))
  {
    hide TreeInv, StackInv, CirculationInv, HoldingsInv, ThreadsInv;
    var s' := LinkInfo(s, t);
    assert TreeInv(s'.tree) && StackInv(s'.tree.sbs, s'.stacks) by {
      hide Inv;
      LocalKnown(s, t);
      TreeKnown(s);
      SetInfoTree(s.tree, Th(s, t).hand, Th(s, t).pc.view.off);
      HandKnown(s, t);
      HandOffStacks(s, t);
      StackFrame(s.tree.sbs, s'.tree.sbs, s.stacks, Th(s, t).hand);
    }
    LinkInfoCirc(s, t);
    LinkInfoHoldings(s, t);
    LinkInfoThreads(s, t);
    Assemble(s');
  }

  lemma TakeStepCirc(s: State, t: nat)
    requires Inv(s) && Th(s, t).pc.TakeObject? && Th(s, t).hand in s.tree.sbs
    ensures CirculationInv(TakeStep(s, t))
  {
    hide Inv, CircAt, ObjOff;
    var s' := TakeStep(s, t);
    LocalKnown(s, t);
    var free := s.tree.sbs[Th(s, t).hand].free;
    var i := Th(s, t).pc.i;
    assert free - {i} == {} ==> free == {i};
    hide LocalOk;
    forall o | o != 0 ensures CircAt(s', o) {
      CircKnown(s, o);
      if o == Th(s, t).hand && free == {i} { LeaveAt(s, s', t, o); } else { SameAt(s, s', o); }
    }
  }

  lemma TakeStepHoldings(s: State, t: nat)
    requires Inv(s) && Th(s, t).pc.TakeObject? && Th(s, t).hand in s.tree.sbs
    ensures HoldingsInv(TakeStep(s, t))
  {
    hide Inv, HoldingsInv, ObjOff, StackOk;
    LocalKnown(s, t);
    OwnKnown(s, Obj(Th(s, t).hand, Th(s, t).pc.i));
    hide LocalOk, OwnOk, IsObject, Handful;
    HoldingsKnown(s, t, Obj(0, 0), 0);
    HoldingsMove(s, TakeStep(s, t), t);
  }

  lemma TakeStepLocal(s: State, t: nat)
    requires Inv(s) && Th(s, t).pc.TakeObject? && Th(s, t).hand in s.tree.sbs
    ensures var s' := TakeStep(s, t); LocalOk(s'.tree.cfg, s'.tree.sbs, s'.stacks, Th(s', t))
  {
    hide Inv, ObjOff, StackOk, SbOk;
    LocalKnown(s, t);
  }

  lemma TakeStepThreads(s: State, t: nat)
    requires Inv(s) && Th(s, t).pc.TakeObject? && Th(s, t).hand in s.tree.sbs
    ensures ThreadsInv(TakeStep(s, t))
  {
    hide Inv, ObjOff, ThreadsInv, LocalOk, SbOk, StackOk;
    LocalKnown(s, t);
    TakeStepLocal(s, t);
    LocalsMove(s, TakeStep(s, t), t);
  }

  lemma TakeStepInv(s: State, t: nat)
    requires Inv(s) && Th(s, t).pc.TakeObject? && Th(s, t).hand in s.tree.sbs
    ensures Inv(TakeStep(s, t))
  {
    hide TreeInv, StackInv, CirculationInv, HoldingsInv, ThreadsInv;
    var s' := TakeStep(s, t);
    assert TreeInv(s'.tree) && StackInv(s'.tree.sbs, s'.stacks) by {
      hide Inv;
      LocalKnown(s, t);
      TreeKnown(s);
      SbKnown(s, Th(s, t).hand);
      OwnKnown(s, Obj(Th(s, t).hand, Th(s, t).pc.i));
      TakeTree(s.tree, Obj(Th(s, t).hand, Th(s, t).pc.i), t);
      HandKnown(s, t);
      HandOffStacks(s, t);
      StackFrame(s.tree.sbs, s'.tree.sbs, s.stacks, Th(s, t).hand);
    }
    TakeStepCirc(s, t);
    TakeStepHoldings(s, t);
    TakeStepThreads(s, t);
    Assemble(s');
  }

  lemma GiveStepCirc(s: State, t: nat)
    requires Inv(s) && Th(s, t).pc.FreeObject? && HasObject(s.tree.sbs, Th(s, t)) && Th(s, t).szc < |s.tree.cfg|
    ensures CirculationInv(GiveStep(s, t))
  {
    hide Inv, CircAt, ObjOff;
    var s' := GiveStep(s, t);
    LocalKnown(s, t);
    var x := Th(s, t).obj.value;
    hide LocalOk;
    forall o | o != 0 ensures CircAt(s', o) {
      CircKnown(s, o);
      if o == x.sb && s.tree.sbs[x.sb].free == {} { EnterAt(s, s', t, o); } else { SameAt(s, s', o); }
    }
  }

  lemma GiveStepHoldings(s: State, t: nat)
    requires Inv(s) && Th(s, t).pc.FreeObject? && HasObject(s.tree.sbs, Th(s, t)) && Th(s, t).szc < |s.tree.cfg|
    ensures HoldingsInv(GiveStep(s, t))
  {
    hide Inv, HoldingsInv, ObjOff;
    hide LocalOk;
    HoldingsKnown(s, t, Obj(0, 0), 0);
    HoldingsMove(s, GiveStep(s, t), t);
  }

  lemma GiveStepLocal(s: State, t: nat)
    requires Inv(s) && Th(s, t).pc.FreeObject? && HasObject(s.tree.sbs, Th(s, t)) && Th(s, t).szc < |s.tree.cfg|
    ensures var s' := GiveStep(s, t); LocalOk(s'.tree.cfg, s'.tree.sbs, s'.stacks, Th(s', t))
  {
    hide Inv, ObjOff, StackOk, SbOk;
    LocalKnown(s, t);
    SbKnown(s, Th(s, t).obj.value.sb);
  }

  lemma GiveStepThreads(s: State, t: nat)
    requires Inv(s) && Th(s, t).pc.FreeObject? && HasObject(s.tree.sbs, Th(s, t)) && Th(s, t).szc < |s.tree.cfg|
    ensures ThreadsInv(GiveStep(s, t))
  {
    hide Inv, ObjOff, ThreadsInv, LocalOk, SbOk, StackOk;
    LocalKnown(s, t);
    SbKnown(s, Th(s, t).obj.value.sb);
    GiveStepLocal(s, t);
    LocalsMove(s, GiveStep(s, t), t);
  }

  lemma GiveStepInv(s: State, t: nat)
    requires Inv(s) && Th(s, t).pc.FreeObject? && HasObject(s.tree.sbs, Th(s, t)) && Th(s, t).szc < |s.tree.cfg|
    ensures Inv(GiveStep(s, t))
  {
    hide TreeInv, StackInv, CirculationInv, HoldingsInv, ThreadsInv;
    var s' := GiveStep(s, t);
    assert TreeInv(s'.tree) && StackInv(s'.tree.sbs, s'.stacks) by {
      hide Inv;
      LocalKnown(s, t);
      TreeKnown(s);
      HoldingsKnown(s, t, Th(s, t).obj.value, 0);
      OwnKnown(s, Th(s, t).obj.value);
      GiveTree(s.tree, Th(s, t).obj.value);
      StackKeep(s.tree.sbs, s'.tree.sbs, s.stacks);
    }
    GiveStepCirc(s, t);
    GiveStepHoldings(s, t);
    GiveStepThreads(s, t);
    Assemble(s');
  }

  lemma CarveUnused(s: State, t: nat)
    requires Inv(s) && Th(s, t).pc.GotObject? && Th(s, t).rest != [] && HasObject(s.tree.sbs, Th(s, t))
      && Th(s, t).szc < |s.tree.cfg| && Th(s, t).rest[0] < |s.tree.cfg|
    ensures ObjOff(s.tree, Th(s, t).obj.value) !in s.tree.sbs
  {
    hide Inv, TreeInv, SbOk, OwnOk, LocalOk;
    TreeKnown(s);
    HoldingsKnown(s, t, Th(s, t).obj.value, 0);
    ObjectOffsetUnused(s.tree, Th(s, t).obj.value);
  }

  lemma CarveStepCirc(s: State, t: nat)
    requires Inv(s) && Th(s, t).pc.GotObject? && Th(s, t).rest != [] && HasObject(s.tree.sbs, Th(s, t))
      && Th(s, t).szc < |s.tree.cfg| && Th(s, t).rest[0] < |s.tree.cfg|
    ensures CirculationInv(CarveStep(s, t))
  {
    hide Inv, CircAt, ObjOff;
    var s' := CarveStep(s, t);
    LocalKnown(s, t);
    var n := ObjOff(s.tree, Th(s, t).obj.value);
    CarveUnused(s, t);
    CfgKnown(s, Th(s, t).rest[0]);
    assert 0 in s'.tree.sbs[n].free;
    hide LocalOk;
    forall o | o != 0 ensures CircAt(s', o) {
      CircKnown(s, o);
      if o == n { EnterAt(s, s', t, o); } else { SameAt(s, s', o); }
    }
  }

  lemma CarveStepHoldings(s: State, t: nat)
    requires Inv(s) && Th(s, t).pc.GotObject? && Th(s, t).rest != [] && HasObject(s.tree.sbs, Th(s, t))
      && Th(s, t).szc < |s.tree.cfg| && Th(s, t).rest[0] < |s.tree.cfg|
    ensures HoldingsInv(CarveStep(s, t))
  {
    hide Inv, HoldingsInv, ObjOff;
    hide LocalOk;
    HoldingsKnown(s, t, Obj(0, 0), 0);
    HoldingsMove(s, CarveStep(s, t), t);
  }

  lemma CarveStepLocal(s: State, t: nat)
    requires Inv(s) && Th(s, t).pc.GotObject? && Th(s, t).rest != [] && HasObject(s.tree.sbs, Th(s, t))
      && Th(s, t).szc < |s.tree.cfg| && Th(s, t).rest[0] < |s.tree.cfg|
    ensures var s' := CarveStep(s, t); LocalOk(s'.tree.cfg, s'.tree.sbs, s'.stacks, Th(s', t))
  {
    hide Inv, ObjOff, StackOk, SbOk;
    LocalKnown(s, t);
    CarveUnused(s, t);
  }

  lemma CarveStepThreads(s: State, t: nat)
    requires Inv(s) && Th(s, t).pc.GotObject? && Th(s, t).rest != [] && HasObject(s.tree.sbs, Th(s, t))
      && Th(s, t).szc < |s.tree.cfg| && Th(s, t).rest[0] < |s.tree.cfg|
    ensures ThreadsInv(CarveStep(s, t))
  {
    hide Inv, ObjOff, ThreadsInv, LocalOk, SbOk, StackOk;
    LocalKnown(s, t);
    CarveUnused(s, t);
    CarveStepLocal(s, t);
    LocalsMove(s, CarveStep(s, t), t);
  }

  lemma CarveStepInv(s: State, t: nat)
    requires Inv(s) && Th(s, t).pc.GotObject? && Th(s, t).rest != [] && HasObject(s.tree.sbs, Th(s, t))
      && Th(s, t).szc < |s.tree.cfg| && Th(s, t).rest[0] < |s.tree.cfg|
    ensures Inv(CarveStep(s, t))
  {
    hide TreeInv, StackInv, CirculationInv, HoldingsInv, ThreadsInv;
    var s' := CarveStep(s, t);
    var x := Th(s, t).obj.value;
    assert TreeInv(s'.tree) && StackInv(s'.tree.sbs, s'.stacks) by {
      hide Inv;
      LocalKnown(s, t);
      TreeKnown(s);
      HoldingsKnown(s, t, x, 0);
      OwnKnown(s, x);
      CfgKnown(s, 0);
      CarveUnused(s, t);
      CarveTree(s.tree, x, Th(s, t).rest[0]);
      StackKeep(s.tree.sbs, s'.tree.sbs, s.stacks);
    }
    CarveStepCirc(s, t);
    CarveStepHoldings(s, t);
    CarveStepThreads(s, t);
    Assemble(s');
  }

  lemma VolumeUnused(s: State, t: nat)
    requires Inv(s) && Th(s, t).vol.Some?
    ensures var v := Th(s, t).vol.value; v in s.tree.vols && s.tree.vols[v] != Rooted && RootOff(v) !in s.tree.sbs
  {
    hide Inv, TreeInv;
    TreeKnown(s);
    HoldingsKnown(s, t, Obj(0, 0), Th(s, t).vol.value);
    RootOffsetUnused(s.tree, Th(s, t).vol.value);
  }

  lemma CarveVolumeStepCirc(s: State, t: nat)
    requires Inv(s) && Th(s, t).pc.FormatVolume? && Th(s, t).vol.Some? && 0 < |s.tree.cfg|
    ensures CirculationInv(CarveVolumeStep(s, t))
  {
    hide Inv, CircAt, ObjOff, SbOk, OwnOk;
    var s' := CarveVolumeStep(s, t);
    LocalKnown(s, t);
    var n := RootOff(Th(s, t).vol.value);
    VolumeUnused(s, t);
    CfgKnown(s, |s.tree.cfg| - 1);
    assert 0 in s'.tree.sbs[n].free;
    hide LocalOk;
    forall o | o != 0 ensures CircAt(s', o) {
      CircKnown(s, o);
      if o == n { EnterAt(s, s', t, o); } else { SameAt(s, s', o); }
    }
  }

  lemma CarveVolumeStepHoldings(s: State, t: nat)
    requires Inv(s) && Th(s, t).pc.FormatVolume? && Th(s, t).vol.Some? && 0 < |s.tree.cfg|
    ensures HoldingsInv(CarveVolumeStep(s, t))
  {
    hide Inv, HoldingsInv, ObjOff;
    hide LocalOk, SbOk, OwnOk;
    HoldingsKnown(s, t, Obj(0, 0), 0);
    HoldingsMove(s, CarveVolumeStep(s, t), t);
  }

  lemma CarveVolumeStepLocal(s: State, t: nat)
    requires Inv(s) && Th(s, t).pc.FormatVolume? && Th(s, t).vol.Some? && 0 < |s.tree.cfg|
    ensures var s' := CarveVolumeStep(s, t); LocalOk(s'.tree.cfg, s'.tree.sbs, s'.stacks, Th(s', t))
  {
    hide Inv, ObjOff, StackOk;
    LocalKnown(s, t);
    VolumeUnused(s, t);
  }

  lemma CarveVolumeStepThreads(s: State, t: nat)
    requires Inv(s) && Th(s, t).pc.FormatVolume? && Th(s, t).vol.Some? && 0 < |s.tree.cfg|
    ensures ThreadsInv(CarveVolumeStep(s, t))
  {
    hide Inv, ObjOff, ThreadsInv, LocalOk, SbOk, StackOk;
    LocalKnown(s, t);
    VolumeUnused(s, t);
    CarveVolumeStepLocal(s, t);
    LocalsMove(s, CarveVolumeStep(s, t), t);
  }

  lemma CarveVolumeStepInv(s: State, t: nat)
    requires Inv(s) && Th(s, t).pc.FormatVolume? && Th(s, t).vol.Some? && 0 < |s.tree.cfg|
    ensures Inv(CarveVolumeStep(s, t))
  {
    hide TreeInv, StackInv, CirculationInv, HoldingsInv, ThreadsInv;
    var s' := CarveVolumeStep(s, t);
    assert TreeInv(s'.tree) && StackInv(s'.tree.sbs, s'.stacks) by {
      hide Inv;
      LocalKnown(s, t);
      TreeKnown(s);
      VolumeUnused(s, t);
      CfgKnown(s, 0);
      CarveVolumeTree(s.tree, Th(s, t).vol.value);
      StackKeep(s.tree.sbs, s'.tree.sbs, s.stacks);
    }
    CarveVolumeStepCirc(s, t);
    CarveVolumeStepHoldings(s, t);
    CarveVolumeStepThreads(s, t);
    Assemble(s');
  }

  lemma UncarveKnown(s: State, t: nat)
    requires Inv(s) && Th(s, t).pc.CheckPopped? && Th(s, t).hand in s.tree.sbs && Th(s, t).szc < |s.tree.cfg|
      && |s.tree.sbs[Th(s, t).hand].free| == s.tree.cfg[Th(s, t).szc].objCnt
    ensures var h := Th(s, t).hand; SbOk(s.tree, h) && s.tree.sbs[h].free == AllFree(Count(s.tree, h))
    ensures forall x :: x in s.tree.own ==> x.sb != Th(s, t).hand
  {
    hide Inv, ObjOff, TreeInv, OwnOk;
    LocalKnown(s, t);
    SbKnown(s, Th(s, t).hand);
    FullIsAll(s.tree.sbs[Th(s, t).hand].free, Count(s.tree, Th(s, t).hand));
    TreeKnown(s);
    UncarvedUnused(s.tree, Th(s, t).hand);
  }

  lemma UncarveParent(s: State, t: nat)
    requires Inv(s) && Th(s, t).pc.CheckPopped? && Th(s, t).hand in s.tree.sbs && Th(s, t).szc < |s.tree.cfg|
      && |s.tree.sbs[Th(s, t).hand].free| == s.tree.cfg[Th(s, t).szc].objCnt
    ensures Th(s, t).obj == None && Th(s, t).vol == None && !Th(s, t).allocating
    ensures match s.tree.sbs[Th(s, t).hand].parent
            case InVolume(v) => v in s.tree.vols && s.tree.vols[v] == Rooted
            case InObject(x) =>
              && x in s.tree.own && s.tree.own[x] == Child && x.sb in s.tree.sbs && x.sb != Th(s, t).hand
              && s.tree.sbs[x.sb].szc < |s.tree.cfg| && s.tree.cfg[Th(s, t).szc].parentSzc == s.tree.sbs[x.sb].szc
  {
    hide Inv, ObjOff;
    LocalKnown(s, t);
    UncarveKnown(s, t);
  }

  lemma UncarveStepCirc(s: State, t: nat)
    requires Inv(s) && Th(s, t).pc.CheckPopped? && Th(s, t).hand in s.tree.sbs && Th(s, t).szc < |s.tree.cfg|
      && |s.tree.sbs[Th(s, t).hand].free| == s.tree.cfg[Th(s, t).szc].objCnt
    ensures CirculationInv(UncarveStep(s, t))
  {
    hide Inv, CircAt, ObjOff, SbOk, OwnOk;
    var s' := UncarveStep(s, t);
    UncarveKnown(s, t);
    HandKnown(s, t);
    hide LocalOk;
    forall o | o != 0 ensures CircAt(s', o) {
      CircKnown(s, o);
      if o == Th(s, t).hand { LeaveAt(s, s', t, o); } else { SameAt(s, s', o); }
    }
  }

  lemma UncarveStepHoldings(s: State, t: nat)
    requires Inv(s) && Th(s, t).pc.CheckPopped? && Th(s, t).hand in s.tree.sbs && Th(s, t).szc < |s.tree.cfg|
      && |s.tree.sbs[Th(s, t).hand].free| == s.tree.cfg[Th(s, t).szc].objCnt
    ensures HoldingsInv(UncarveStep(s, t))
  {
    hide Inv, HoldingsInv, ObjOff, LocalOk, SbOk, OwnOk;
    UncarveParent(s, t);
    HoldingsKnown(s, t, Obj(0, 0), 0);
    HoldingsMove(s, UncarveStep(s, t), t);
  }

  lemma UncarveStepLocal(s: State, t: nat)
    requires Inv(s) && Th(s, t).pc.CheckPopped? && Th(s, t).hand in s.tree.sbs && Th(s, t).szc < |s.tree.cfg|
      && |s.tree.sbs[Th(s, t).hand].free| == s.tree.cfg[Th(s, t).szc].objCnt
    ensures var s' := UncarveStep(s, t); LocalOk(s'.tree.cfg, s'.tree.sbs, s'.stacks, Th(s', t))
  {
    hide Inv, ObjOff, StackOk, SbOk;
    UncarveParent(s, t);
    LocalKnown(s, t);
  }

  lemma UncarveStepThreads(s: State, t: nat)
    requires Inv(s) && Th(s, t).pc.CheckPopped? && Th(s, t).hand in s.tree.sbs && Th(s, t).szc < |s.tree.cfg|
      && |s.tree.sbs[Th(s, t).hand].free| == s.tree.cfg[Th(s, t).szc].objCnt
    ensures ThreadsInv(UncarveStep(s, t))
  {
    hide Inv, ObjOff, ThreadsInv, LocalOk, SbOk, StackOk;
    LocalKnown(s, t);
    UncarveKnown(s, t);
    UncarveStepLocal(s, t);
    LocalsMove(s, UncarveStep(s, t), t);
  }

  lemma UncarveStepInv(s: State, t: nat)
    requires Inv(s) && Th(s, t).pc.CheckPopped? && Th(s, t).hand in s.tree.sbs && Th(s, t).szc < |s.tree.cfg|
      && |s.tree.sbs[Th(s, t).hand].free| == s.tree.cfg[Th(s, t).szc].objCnt
    ensures Inv(UncarveStep(s, t))
  {
    hide TreeInv, StackInv, CirculationInv, HoldingsInv, ThreadsInv;
    var s' := UncarveStep(s, t);
    assert TreeInv(s'.tree) && StackInv(s'.tree.sbs, s'.stacks) by {
      hide Inv;
      LocalKnown(s, t);
      TreeKnown(s);
      UncarveKnown(s, t);
      UncarveTree(s.tree, Th(s, t).hand, t);
      HandKnown(s, t);
      HandOffStacks(s, t);
      StackFrame(s.tree.sbs, s'.tree.sbs, s.stacks, Th(s, t).hand);
    }
    UncarveStepCirc(s, t);
    UncarveStepHoldings(s, t);
    UncarveStepThreads(s, t);
    Assemble(s');
  }

  lemma AcquireVolumeStepCirc(s: State, t: nat, v: nat)
    requires Inv(s) && Th(s, t).pc.NewSuperblock? && Th(s, t).szc == |s.tree.cfg| - 1
    requires v in s.tree.vols && s.tree.vols[v] == Pooled
    ensures CirculationInv(AcquireVolumeStep(s, t, v))
  {
    hide Inv, CircAt, ObjOff, SbOk, OwnOk;
    var s' := AcquireVolumeStep(s, t, v);
    hide LocalOk;
    forall o | o != 0 ensures CircAt(s', o) { CircKnown(s, o); SameAt(s, s', o); }
  }

  lemma AcquireVolumeStepHoldings(s: State, t: nat, v: nat)
    requires Inv(s) && Th(s, t).pc.NewSuperblock? && Th(s, t).szc == |s.tree.cfg| - 1
    requires v in s.tree.vols && s.tree.vols[v] == Pooled
    ensures HoldingsInv(AcquireVolumeStep(s, t, v))
  {
    hide Inv, HoldingsInv, ObjOff;
    LocalKnown(s, t);
    hide LocalOk, SbOk, OwnOk;
    HoldingsKnown(s, t, Obj(0, 0), 0);
    HoldingsMove(s, AcquireVolumeStep(s, t, v), t);
  }

  lemma AcquireVolumeStepLocal(s: State, t: nat, v: nat)
    requires Inv(s) && Th(s, t).pc.NewSuperblock? && Th(s, t).szc == |s.tree.cfg| - 1
    requires v in s.tree.vols && s.tree.vols[v] == Pooled
    ensures var s' := AcquireVolumeStep(s, t, v); LocalOk(s'.tree.cfg, s'.tree.sbs, s'.stacks, Th(s', t))
  {
    hide Inv, ObjOff, StackOk;
    LocalKnown(s, t);
  }

  lemma AcquireVolumeStepThreads(s: State, t: nat, v: nat)
    requires Inv(s) && Th(s, t).pc.NewSuperblock? && Th(s, t).szc == |s.tree.cfg| - 1
    requires v in s.tree.vols && s.tree.vols[v] == Pooled
    ensures ThreadsInv(AcquireVolumeStep(s, t, v))
  {
    hide Inv, ObjOff, ThreadsInv, LocalOk, SbOk, StackOk;
    LocalKnown(s, t);
    AcquireVolumeStepLocal(s, t, v);
    LocalsMove(s, AcquireVolumeStep(s, t, v), t);
  }

  lemma AcquireVolumeStepInv(s: State, t: nat, v: nat)
    requires Inv(s) && Th(s, t).pc.NewSuperblock? && Th(s, t).szc == |s.tree.cfg| - 1
    requires v in s.tree.vols && s.tree.vols[v] == Pooled
    ensures Inv(AcquireVolumeStep(s, t, v))
  {
    hide TreeInv, StackInv, CirculationInv, HoldingsInv, ThreadsInv;
    var s' := AcquireVolumeStep(s, t, v);
    assert TreeInv(s'.tree) && StackInv(s'.tree.sbs, s'.stacks) by {
      hide Inv;
      LocalKnown(s, t);
      TreeKnown(s);
      SetVolumeTree(s.tree, v, HeldBy(t));
    }
    AcquireVolumeStepCirc(s, t, v);
    AcquireVolumeStepHoldings(s, t, v);
    AcquireVolumeStepThreads(s, t, v);
    Assemble(s');
  }

  lemma ReleaseVolumeStepCirc(s: State, t: nat)
    requires Inv(s) && Th(s, t).pc.ReleaseVolume? && Th(s, t).vol.Some?
    ensures CirculationInv(ReleaseVolumeStep(s, t))
  {
    hide Inv, CircAt, ObjOff, SbOk, OwnOk;
    var s' := ReleaseVolumeStep(s, t);
    hide LocalOk;
    forall o | o != 0 ensures CircAt(s', o) { CircKnown(s, o); SameAt(s, s', o); }
  }

  lemma ReleaseVolumeStepHoldings(s: State, t: nat)
    requires Inv(s) && Th(s, t).pc.ReleaseVolume? && Th(s, t).vol.Some?
    ensures HoldingsInv(ReleaseVolumeStep(s, t))
  {
    hide Inv, HoldingsInv, ObjOff;
    LocalKnown(s, t);
    hide LocalOk, SbOk, OwnOk;
    HoldingsKnown(s, t, Obj(0, 0), 0);
    HoldingsMove(s, ReleaseVolumeStep(s, t), t);
  }

  lemma ReleaseVolumeStepLocal(s: State, t: nat)
    requires Inv(s) && Th(s, t).pc.ReleaseVolume? && Th(s, t).vol.Some?
    ensures var s' := ReleaseVolumeStep(s, t); LocalOk(s'.tree.cfg, s'.tree.sbs, s'.stacks, Th(s', t))
  {
    hide Inv, ObjOff, StackOk;
    LocalKnown(s, t);
  }

  lemma ReleaseVolumeStepThreads(s: State, t: nat)
    requires Inv(s) && Th(s, t).pc.ReleaseVolume? && Th(s, t).vol.Some?
    ensures ThreadsInv(ReleaseVolumeStep(s, t))
  {
    hide Inv, ObjOff, ThreadsInv, LocalOk, SbOk, StackOk;
    LocalKnown(s, t);
    ReleaseVolumeStepLocal(s, t);
    LocalsMove(s, ReleaseVolumeStep(s, t), t);
  }

  lemma ReleaseVolumeStepInv(s: State, t: nat)
    requires Inv(s) && Th(s, t).pc.ReleaseVolume? && Th(s, t).vol.Some?
    ensures Inv(ReleaseVolumeStep(s, t))
  {
    hide TreeInv, StackInv, CirculationInv, HoldingsInv, ThreadsInv;
    var s' := ReleaseVolumeStep(s, t);
    assert TreeInv(s'.tree) && StackInv(s'.tree.sbs, s'.stacks) by {
      hide Inv;
      LocalKnown(s, t);
      TreeKnown(s);
      VolumeUnused(s, t);
      SetVolumeTree(s.tree, Th(s, t).vol.value, Pooled);
    }
    ReleaseVolumeStepCirc(s, t);
    ReleaseVolumeStepHoldings(s, t);
    ReleaseVolumeStepThreads(s, t);
    Assemble(s');
  }

  lemma ReturnStepCirc(s: State, t: nat)
    requires Inv(s) && Th(s, t).pc.GotObject? && Th(s, t).obj.Some?
    ensures CirculationInv(ReturnStep(s, t))
  {
    hide Inv, CircAt, ObjOff, SbOk, OwnOk;
    var s' := ReturnStep(s, t);
    hide LocalOk;
    forall o | o != 0 ensures CircAt(s', o) { CircKnown(s, o); SameAt(s, s', o); }
  }

  lemma ReturnStepHoldings(s: State, t: nat)
    requires Inv(s) && Th(s, t).pc.GotObject? && Th(s, t).obj.Some?
    ensures HoldingsInv(ReturnStep(s, t))
  {
    hide Inv, HoldingsInv, ObjOff;
    LocalKnown(s, t);
    hide LocalOk, SbOk, OwnOk;
    HoldingsKnown(s, t, Obj(0, 0), 0);
    HoldingsMove(s, ReturnStep(s, t), t);
  }

  lemma ReturnStepLocal(s: State, t: nat)
    requires Inv(s) && Th(s, t).pc.GotObject? && Th(s, t).obj.Some?
    ensures var s' := ReturnStep(s, t); LocalOk(s'.tree.cfg, s'.tree.sbs, s'.stacks, Th(s', t))
  {
    hide Inv, ObjOff, StackOk;
    LocalKnown(s, t);
  }

  lemma ReturnStepThreads(s: State, t: nat)
    requires Inv(s) && Th(s, t).pc.GotObject? && Th(s, t).obj.Some?
    ensures ThreadsInv(ReturnStep(s, t))
  {
    hide Inv, ObjOff, ThreadsInv, LocalOk, SbOk, StackOk;
    LocalKnown(s, t);
    ReturnStepLocal(s, t);
    LocalsMove(s, ReturnStep(s, t), t);
  }

  lemma ReturnStepInv(s: State, t: nat)
    requires Inv(s) && Th(s, t).pc.GotObject? && Th(s, t).obj.Some?
    ensures Inv(ReturnStep(s, t))
  {
    hide TreeInv, StackInv, CirculationInv, HoldingsInv, ThreadsInv;
    var s' := ReturnStep(s, t);
    assert TreeInv(s'.tree) && StackInv(s'.tree.sbs, s'.stacks) by {
      hide Inv;
      LocalKnown(s, t);
      TreeKnown(s);
      HoldingsKnown(s, t, Th(s, t).obj.value, 0);
      SetOwnerTree(s.tree, Th(s, t).obj.value, User);
    }
    ReturnStepCirc(s, t);
    ReturnStepHoldings(s, t);
    ReturnStepThreads(s, t);
    Assemble(s');
  }

  lemma BeginFreeStepCirc(s: State, t: nat, x: Obj)
    requires Inv(s) && Th(s, t).pc.Idle? && x in s.tree.own && s.tree.own[x] == User && x.sb in s.tree.sbs
    ensures CirculationInv(BeginFreeStep(s, t, x))
  {
    hide Inv, CircAt, ObjOff, SbOk, OwnOk;
    var s' := BeginFreeStep(s, t, x);
    hide LocalOk;
    forall o | o != 0 ensures CircAt(s', o) { CircKnown(s, o); SameAt(s, s', o); }
  }

  lemma BeginFreeStepHoldings(s: State, t: nat, x: Obj)
    requires Inv(s) && Th(s, t).pc.Idle? && x in s.tree.own && s.tree.own[x] == User && x.sb in s.tree.sbs
    ensures HoldingsInv(BeginFreeStep(s, t, x))
  {
    hide Inv, HoldingsInv, ObjOff;
    LocalKnown(s, t);
    hide LocalOk, SbOk, OwnOk;
    HoldingsKnown(s, t, Obj(0, 0), 0);
    HoldingsMove(s, BeginFreeStep(s, t, x), t);
  }

  lemma BeginFreeStepLocal(s: State, t: nat, x: Obj)
    requires Inv(s) && Th(s, t).pc.Idle? && x in s.tree.own && s.tree.own[x] == User && x.sb in s.tree.sbs
    ensures var s' := BeginFreeStep(s, t, x); LocalOk(s'.tree.cfg, s'.tree.sbs, s'.stacks, Th(s', t))
  {
    hide Inv, ObjOff, StackOk;
    LocalKnown(s, t);
    SbKnown(s, x.sb);
  }

  lemma BeginFreeStepThreads(s: State, t: nat, x: Obj)
    requires Inv(s) && Th(s, t).pc.Idle? && x in s.tree.own && s.tree.own[x] == User && x.sb in s.tree.sbs
    ensures ThreadsInv(BeginFreeStep(s, t, x))
  {
    hide Inv, ObjOff, ThreadsInv, LocalOk, SbOk, StackOk;
    LocalKnown(s, t);
    SbKnown(s, x.sb);
    BeginFreeStepLocal(s, t, x);
    LocalsMove(s, BeginFreeStep(s, t, x), t);
  }

  lemma BeginFreeStepInv(s: State, t: nat, x: Obj)
    requires Inv(s) && Th(s, t).pc.Idle? && x in s.tree.own && s.tree.own[x] == User && x.sb in s.tree.sbs
    ensures Inv(BeginFreeStep(s, t, x))
  {
    hide TreeInv, StackInv, CirculationInv, HoldingsInv, ThreadsInv;
    var s' := BeginFreeStep(s, t, x);
    assert TreeInv(s'.tree) && StackInv(s'.tree.sbs, s'.stacks) by {
      hide Inv;
      LocalKnown(s, t);
      TreeKnown(s);
      SetOwnerTree(s.tree, x, Thread(t));
    }
    BeginFreeStepCirc(s, t, x);
    BeginFreeStepHoldings(s, t, x);
    BeginFreeStepThreads(s, t, x);
    Assemble(s');
  }
}
