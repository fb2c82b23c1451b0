/** Whole runs of the allocator, and what holds in every state they reach. */
module GrooveSafety {
  import opened GrooveConfig
  import opened GrooveState
  import opened GrooveGeometry
  import opened GrooveTree
  import opened GrooveAlloc

  /** What can happen next: a caller starts an alloc of a size class or a free
      of one of its live allocations, a thread does its next atomic operation,
      or a volume joins or leaves the pool. */
  datatype Label =
    | Alloc(t: nat, szc: nat)
    | Free(t: nat, x: Obj)
    | Run(t: nat, c: Choice)
    | AddVolume(v: nat)
    | RemoveVolume(v: nat)

  /** Least significant bit of a bit field. */
  ghost function Lsb(f: set<nat>): (i: nat)
    requires f != {}
    ensures i in f && forall j :: j in f ==> i <= j
  {
    var x :| x in f;
    assert forall j :: j in f ==> j == x || j in f - {x};
    if f - {x} == {} then x
    else
      var y := Lsb(f - {x});
      if x < y then x else y
  }

  ghost predicate FieldOk(s: State, o: nat, szc: nat) {
    && o in s.tree.sbs && szc < |s.tree.cfg|
    && s.tree.sbs[o].szc == szc
    && forall i :: i in s.tree.sbs[o].free ==> i < s.tree.cfg[szc].objCnt
  }

  /** The consistency tests of the code before a thread's next operation: headers
      of the expected class, bit fields in range, no full superblock in
      circulation and no object freed twice. A thread that fails one is stuck. */
  ghost predicate Sane(s: State, t: nat) {
    var l := Th(s, t);
    && l.szc < |s.stacks| == |s.tree.cfg|
    && match l.pc
       case PickObject => FieldOk(s, l.hand, l.szc) && s.tree.sbs[l.hand].free != {}
       case TakeObject(i) => FieldOk(s, l.hand, l.szc) && i in s.tree.sbs[l.hand].free
       case SlotPut => FieldOk(s, l.hand, l.szc)
       case PushLoad => FieldOk(s, l.hand, l.szc)
       case PushLink(w) => FieldOk(s, l.hand, l.szc)
       case PushCas(w) => FieldOk(s, l.hand, l.szc)
       case CheckPopped => FieldOk(s, l.hand, l.szc)
       case GotObject => HasObject(s.tree.sbs, l) && (l.rest != [] ==> l.rest[0] < |s.tree.cfg|)
       case FreeObject =>
         && HasObject(s.tree.sbs, l) && FieldOk(s, l.obj.value.sb, l.szc)
         && l.obj.value.idx < s.tree.cfg[l.szc].objCnt
         && l.obj.value.idx !in s.tree.sbs[l.obj.value.sb].free
       case FormatVolume => l.vol.Some?
       case ReleaseVolume => l.vol.Some?
       case _ => true
  }

  ghost predicate PoolEmpty(s: State) {
    forall v :: v in s.tree.vols ==> s.tree.vols[v] != Pooled
  }

  /** Operations that change no shared word: loads, and swaps that fail. */
  predicate Quiet(s: State, t: nat) {
    match Th(s, t).pc
    case SlotTest => true
    case PopLoad => true
    case PopRead(w) => true
    case PopCas(w, next) => !PopMatches(s, t)
    case PickObject => true
    case PushLoad => true
    case PushCas(w) => !PushMatches(s, t)
    case _ => false
  }

  /** What the thread does next after such an operation. A pop reads the info
      word of the offset it loaded, garbage if that is no longer a superblock. */
  ghost function AfterQuiet(s: State, t: nat, c: Choice): Pc
    requires Sane(s, t) && Quiet(s, t)
  {
    var l := Th(s, t);
    var st := s.stacks[l.szc];
    match l.pc
    case SlotTest => if Slot(s, (l.szc, c.cgroup)) != 0 then SlotTake else PopLoad
    case PopLoad =>
      if st.off != 0 then PopRead(View(st.ver, st.off, st.ops)) else if l.allocating then NewSuperblock else Idle
    case PopRead(w) => PopCas(w, if w.off in s.tree.sbs then s.tree.sbs[w.off].info else c.junk)
    case PopCas(w, next) => PopLoad
    case PickObject => TakeObject(Lsb(s.tree.sbs[l.hand].free))
    case PushLoad => PushLink(View(st.ver, st.off, st.ops))
    case PushCas(w) => PushLoad
  }

  /** The next atomic operation of thread t. */
  ghost function Operate(s: State, t: nat, c: Choice): State
    requires Sane(s, t)
  {
    var l := Th(s, t);
    if Quiet(s, t) then SetLocal(s, t, l.(pc := AfterQuiet(s, t, c)))
    else
      match l.pc
      case SlotTake => Exchange(s, t, c.cgroup)
      case SlotPut => Exchange(s, t, c.cgroup)
      case PopCas(w, next) => Pop(s, t)
      case NewSuperblock =>
        if l.szc < |s.tree.cfg| - 1 then
          SetLocal(s, t, l.(pc := SlotTest, szc := s.tree.cfg[l.szc].parentSzc, rest := [l.szc] + l.rest))
        else if PoolEmpty(s) then SetLocal(s, t, l.(pc := Idle))
        else AcquireVolumeStep(s, t, c.vol)
      case FormatVolume => CarveVolumeStep(s, t)
      case TakeObject(i) => TakeStep(s, t)
      case PushLink(w) => LinkInfo(s, t)
      case PushCas(w) => Push(s, t)
      case GotObject => if l.rest == [] then ReturnStep(s, t) else CarveStep(s, t)
      case FreeObject => GiveStep(s, t)
      case CheckPopped =>
        if |s.tree.sbs[l.hand].free| < s.tree.cfg[l.szc].objCnt then SetLocal(s, t, l.(pc := PushLoad))
        else UncarveStep(s, t)
      case ReleaseVolume => ReleaseVolumeStep(s, t)
      case _ => s
  }

  /** The two provisos on a run: each live allocation is freed by one caller, and
      fewer than 512 operations complete on a stack during one pop attempt. */
  ghost predicate Next(s: State, b: Label, s': State) {
    match b
    case Alloc(t, z) =>
      && Th(s, t).pc.Idle? && z < |s.tree.cfg|
      && s' == SetLocal(s, t, Th(s, t).(pc := SlotTest, allocating := true, szc := z, rest := []))
    case Free(t, x) =>
      && Th(s, t).pc.Idle? && x in s.tree.own && s.tree.own[x] == User && x.sb in s.tree.sbs
      && s' == BeginFreeStep(s, t, x)
    case Run(t, c) =>
      && !Th(s, t).pc.Idle? && Sane(s, t)
      && (PopMatches(s, t) ==> PopTimely(s, t))
      && (Th(s, t).pc.NewSuperblock? && !PoolEmpty(s) ==> c.vol in s.tree.vols && s.tree.vols[c.vol] == Pooled)
      && s' == Operate(s, t, c)
    case AddVolume(v) => v !in s.tree.vols && s' == s.(tree := SetVolume(s.tree, v, Pooled))
    case RemoveVolume(v) =>
      v in s.tree.vols && s.tree.vols[v] == Pooled && s' == s.(tree := s.tree.(vols := s.tree.vols - {v}))
  }

  function Init(cfg: seq<SzcCfg>): State {
    State(Tree(cfg, map[], map[], map[]), map[], seq(|cfg|, _ => Stack(0, 0, 0, [])), map[], map[])
  }

  ghost predicate Behavior(cfg: seq<SzcCfg>, tr: seq<State>, ls: seq<Label>) {
    |tr| == |ls| + 1 && tr[0] == Init(cfg) && forall i: nat :: i < |ls| ==> Next(tr[i], ls[i], tr[i + 1])
  }

  // ----- every step keeps the invariant

  lemma InitInv(cfg: seq<SzcCfg>)
    requires ValidCfg(cfg)
    ensures Inv(Init(cfg))
  {
    var s := Init(cfg);
    assert TreeInv(s.tree);
    assert StackInv(s.tree.sbs, s.stacks);
    forall o | o != 0 ensures CircAt(s, o) { }
  }

  /** The code's consistency tests never fire. */
  lemma AlwaysSane(s: State, t: nat)
    requires Inv(s)
    ensures Sane(s, t)
  {
    hide Inv, ObjOff, StackOk;
    LocalKnown(s, t);
    var l := Th(s, t);
    if l.hand in s.tree.sbs { SbKnown(s, l.hand); HandKnown(s, t); }
    if l.obj.Some? {
      HoldingsKnown(s, t, l.obj.value, 0);
      OwnKnown(s, l.obj.value);
      SbKnown(s, l.obj.value.sb);
    }
  }

  lemma VolumesInv(s: State, s': State)
    requires Inv(s) && s' == s.(tree := s.tree.(vols := s'.tree.vols)) && TreeInv(s'.tree)
    requires forall v :: v in s.tree.vols && s.tree.vols[v].HeldBy? ==>
        v in s'.tree.vols && s'.tree.vols[v] == s.tree.vols[v]
    requires forall v :: v in s'.tree.vols && s'.tree.vols[v].HeldBy? ==>
        v in s.tree.vols && s'.tree.vols[v] == s.tree.vols[v]
    ensures Inv(s')
  {
    hide Inv, TreeInv;
    TreeKnown(s);
    hide StackInv;
    forall o | o != 0 ensures CircAt(s', o) { CircKnown(s, o); SameAt(s, s', o); }
    hide CircAt;
    forall u ensures HasOk(s', u) { HoldingsKnown(s, u, Obj(0, 0), 0); }
    forall x ensures ObjectHeld(s', x) { HoldingsKnown(s, 0, x, 0); }
    forall v ensures VolumeHeld(s', v) { HoldingsKnown(s, 0, Obj(0, 0), v); }
    hide HasOk, ObjectHeld, VolumeHeld, LocalOk;
    forall u ensures LocalOk(s'.tree.cfg, s'.tree.sbs, s'.stacks, Th(s', u)) { LocalKnown(s, u); }
    Assemble(s');
  }

  lemma AddVolumeInv(s: State, v: nat)
    requires Inv(s) && v !in s.tree.vols
    ensures Inv(s.(tree := SetVolume(s.tree, v, Pooled)))
  {
    hide Inv, TreeInv;
    TreeKnown(s);
    SetVolumeTree(s.tree, v, Pooled);
    VolumesInv(s, s.(tree := SetVolume(s.tree, v, Pooled)));
  }

  lemma RemoveVolumeInv(s: State, v: nat)
    requires Inv(s) && v in s.tree.vols && s.tree.vols[v] == Pooled
    ensures Inv(s.(tree := s.tree.(vols := s.tree.vols - {v})))
  {
    hide Inv;
    var tree := s.tree.(vols := s.tree.vols - {v});
    assert TreeInv(tree) by {
      TreeKnown(s);
      hide ObjOff, OwnOk;
      forall o | o in tree.sbs ensures SbOk(tree, o) { assert SbOk(s.tree, o); SbFrame(s.tree, tree, o); }
      forall x ensures OwnOk(tree, x) { assert OwnOk(s.tree, x); OwnFrame(s.tree, tree, x); }
      forall w ensures VolumeOk(tree, w) { assert VolumeOk(s.tree, w); }
    }
    hide TreeInv;
    VolumesInv(s, s.(tree := tree));
  }

  lemma QuietInv(s: State, t: nat, c: Choice)
    requires Inv(s) && Sane(s, t) && Quiet(s, t)
    ensures Inv(Operate(s, t, c))
  {
    hide Inv;
    QuietLocal(s, t, c);
    hide LocalOk;
    SetLocalInv(s, t, Th(s, t).(pc := AfterQuiet(s, t, c)));
  }

  lemma QuietLocal(s: State, t: nat, c: Choice)
    requires Inv(s) && Sane(s, t) && Quiet(s, t)
    ensures LocalOk(s.tree.cfg, s.tree.sbs, s.stacks, Th(s, t).(pc := AfterQuiet(s, t, c)))
  {
    hide Inv;
    LocalKnown(s, t);
    if Th(s, t).pc.PopRead? {
      PopReadLocal(s.tree.cfg, s.tree.sbs, s.stacks, Th(s, t), c.junk);
    } else if Th(s, t).pc.PopLoad? || Th(s, t).pc.PushLoad? {
    } else {
      hide StackOk;
    }
  }

  /** If nothing succeeded since the load, the offset is still the top, a
      superblock whose info word is the link; otherwise the value read is
      worthless and the swap will fail. */
  lemma PopReadLocal(cfg: seq<SzcCfg>, sbs: map<nat, Superblock>, stacks: seq<Stack>, l: Local, junk: nat)
    requires LocalOk(cfg, sbs, stacks, l) && l.pc.PopRead? && l.szc < |stacks| && StackOk(sbs, stacks[l.szc])
    ensures var v := l.pc.view;
            LocalOk(cfg, sbs, stacks, l.(pc := PopCas(v, if v.off in sbs then sbs[v.off].info else junk)))
  {
  }

  lemma NewSuperblockInv(s: State, t: nat, c: Choice)
    requires Inv(s) && Sane(s, t) && Th(s, t).pc.NewSuperblock?
    requires !PoolEmpty(s) ==> c.vol in s.tree.vols && s.tree.vols[c.vol] == Pooled
    ensures Inv(Operate(s, t, c))
  {
    hide Inv;
    LocalKnown(s, t);
    CfgKnown(s, Th(s, t).szc);
    var l := Th(s, t);
    if l.szc == |s.tree.cfg| - 1 && !PoolEmpty(s) {
      AcquireVolumeStepInv(s, t, c.vol);
    } else if l.szc < |s.tree.cfg| - 1 {
      var rest := [l.szc] + l.rest;
      assert rest[1..] == l.rest;
      SetLocalInv(s, t, l.(pc := SlotTest, szc := s.tree.cfg[l.szc].parentSzc, rest := rest));
    } else {
      SetLocalInv(s, t, l.(pc := Idle));
    }
  }

  lemma OperateInv(s: State, t: nat, c: Choice)
    requires Inv(s) && Sane(s, t) && (PopMatches(s, t) ==> PopTimely(s, t))
    requires Th(s, t).pc.NewSuperblock? && !PoolEmpty(s) ==> c.vol in s.tree.vols && s.tree.vols[c.vol] == Pooled
    ensures Inv(Operate(s, t, c))
  {
    LocalKnown(s, t);
    hide Inv;
    var l := Th(s, t);
    if Quiet(s, t) {
      QuietInv(s, t, c);
    } else {
      match l.pc
      case Idle =>
      case SlotTake => ExchangeInv(s, t, c.cgroup);
      case SlotPut => ExchangeInv(s, t, c.cgroup);
      case PopCas(w, next) => TimelyCurrent(s, t); PopInv(s, t);
      case NewSuperblock => NewSuperblockInv(s, t, c);
      case FormatVolume => CarveVolumeStepInv(s, t);
      case TakeObject(i) => TakeStepInv(s, t);
      case PushLink(w) => LinkInfoInv(s, t);
      case PushCas(w) => PushInv(s, t);
      case GotObject => if l.rest == [] { ReturnStepInv(s, t); } else { CarveStepInv(s, t); }
      case FreeObject => GiveStepInv(s, t);
      case CheckPopped => CheckPoppedInv(s, t, c);
      case ReleaseVolume => ReleaseVolumeStepInv(s, t);
    }
  }

  lemma CheckPoppedInv(s: State, t: nat, c: Choice)
    requires Inv(s) && Sane(s, t) && Th(s, t).pc.CheckPopped?
    ensures Inv(Operate(s, t, c))
  {
    hide Inv;
    var l := Th(s, t);
    LocalKnown(s, t);
    FullIsAll(s.tree.sbs[l.hand].free, s.tree.cfg[l.szc].objCnt);
    if |s.tree.sbs[l.hand].free| < s.tree.cfg[l.szc].objCnt {
      SetLocalInv(s, t, l.(pc := PushLoad));
    } else {
      UncarveStepInv(s, t);
    }
  }

  lemma NextInv(s: State, b: Label, s': State)
    requires Inv(s) && Next(s, b, s')
    ensures Inv(s')
  {
    hide Inv;
    match b
    case Alloc(t, z) =>
      LocalKnown(s, t);
      SetLocalInv(s, t, Th(s, t).(pc := SlotTest, allocating := true, szc := z, rest := []));
    case Free(t, x) => BeginFreeStepInv(s, t, x);
    case Run(t, c) => OperateInv(s, t, c);
    case AddVolume(v) => AddVolumeInv(s, v);
    case RemoveVolume(v) => RemoveVolumeInv(s, v);
  }

  lemma {:induction false} BehaviorInv(cfg: seq<SzcCfg>, tr: seq<State>, ls: seq<Label>, i: nat)
    requires ValidCfg(cfg) && Behavior(cfg, tr, ls) && i < |tr|
    ensures Inv(tr[i])
    decreases i
  {
    if i == 0 {
      InitInv(cfg);
    } else {
      BehaviorInv(cfg, tr, ls, i - 1);
      hide Inv;
      NextInv(tr[i - 1], ls[i - 1], tr[i]);
    }
  }

  // ----- what every reachable state guarantees

  /** A superblock with a free object is in exactly one place; a full one is in none. */
  ghost predicate OnePlace(s: State, o: nat) {
    && (o in s.tree.sbs && s.tree.sbs[o].free != {} ==> exists p :: At(s, p, o) && forall q :: At(s, q, o) ==> q == p)
    && (o in s.tree.sbs && s.tree.sbs[o].free == {} ==> forall p :: !At(s, p, o))
  }

  lemma ReachableOnePlace(cfg: seq<SzcCfg>, tr: seq<State>, ls: seq<Label>, i: nat, o: nat)
    requires ValidCfg(cfg) && Behavior(cfg, tr, ls) && i < |tr|
    ensures OnePlace(tr[i], o)
  {
    BehaviorInv(cfg, tr, ls, i);
    hide Inv, Behavior, ObjOff;
    var s := tr[i];
    if o in s.tree.sbs {
      SbKnown(s, o);
      CircKnown(s, o);
      if o in s.loc { assert At(s, s.loc[o], o); }
    }
  }

  function Lo(s: State, x: Obj): nat
    requires x.sb in s.tree.sbs && s.tree.sbs[x.sb].szc < |s.tree.cfg|
  {
    ObjOff(s.tree, x)
  }

  function Hi(s: State, x: Obj): nat
    requires x.sb in s.tree.sbs && s.tree.sbs[x.sb].szc < |s.tree.cfg|
  {
    ObjOff(s.tree, x) + Footprint(s.tree, x.sb)
  }

  predicate Live(s: State, x: Obj) {
    x in s.tree.own && s.tree.own[x] == User && x.sb in s.tree.sbs && s.tree.sbs[x.sb].szc < |s.tree.cfg|
  }

  /** A live allocation lies in the data region of one volume in use, clear of
      every superblock header and of every other live allocation. */
  ghost predicate WellPlaced(s: State, x: Obj)
    requires Live(s, x)
  {
    && (exists v :: v in s.tree.vols && s.tree.vols[v] == Rooted
                    && VolumeOff(v) + BLOCK <= Lo(s, x) && Hi(s, x) <= VolumeOff(v + 1))
    && (forall o :: o in s.tree.sbs ==> !Overlap(Lo(s, x), Hi(s, x), o, o + BLOCK))
    && (forall y :: Live(s, y) && y != x ==> !Overlap(Lo(s, x), Hi(s, x), Lo(s, y), Hi(s, y)))
  }

  lemma ReachableWellPlaced(cfg: seq<SzcCfg>, tr: seq<State>, ls: seq<Label>, i: nat, x: Obj)
    requires ValidCfg(cfg) && Behavior(cfg, tr, ls) && i < |tr| && Live(tr[i], x)
    ensures WellPlaced(tr[i], x)
  {
    BehaviorInv(cfg, tr, ls, i);
    hide Inv, Behavior, TreeInv, ObjOff, SbEnd;
    var s := tr[i];
    TreeKnown(s);
    OwnKnown(s, x);
    var v := RootOf(s.tree, x.sb);
    SlotBounds(s.tree, x);
    forall o | o in s.tree.sbs ensures !Overlap(Lo(s, x), Hi(s, x), o, o + BLOCK) { ObjectOffHeaders(s.tree, x, o); }
    forall y | Live(s, y) && y != x ensures !Overlap(Lo(s, x), Hi(s, x), Lo(s, y), Hi(s, y)) {
      ObjectsDisjoint(s.tree, x, y);
    }
  }

  /** A volume in the pool overlaps no superblock, hence no live allocation. */
  lemma ReachablePoolUnused(cfg: seq<SzcCfg>, tr: seq<State>, ls: seq<Label>, i: nat, v: nat, x: Obj)
    requires ValidCfg(cfg) && Behavior(cfg, tr, ls) && i < |tr|
    requires v in tr[i].tree.vols && tr[i].tree.vols[v] == Pooled && Live(tr[i], x)
    ensures !Overlap(VolumeOff(v), VolumeOff(v + 1), Lo(tr[i], x), Hi(tr[i], x))
  {
    ReachableWellPlaced(cfg, tr, ls, i, x);
    var s := tr[i];
    hide Behavior, ObjOff;
    var w :| w in s.tree.vols && s.tree.vols[w] == Rooted
             && VolumeOff(w) + BLOCK <= Lo(s, x) && Hi(s, x) <= VolumeOff(w + 1);
    VolumesApart(v, w);
  }

  /** The consistency tests never fire, and no thread is ever stuck: short of a
      late pop, every busy thread has a next step. */
  lemma ReachableProgress(cfg: seq<SzcCfg>, tr: seq<State>, ls: seq<Label>, i: nat, t: nat)
    requires ValidCfg(cfg) && Behavior(cfg, tr, ls) && i < |tr| && !Th(tr[i], t).pc.Idle?
    requires PopMatches(tr[i], t) ==> PopTimely(tr[i], t)
    ensures Sane(tr[i], t)
    ensures exists c, s' :: Next(tr[i], Run(t, c), s')
  {
    BehaviorInv(cfg, tr, ls, i);
    hide Inv, Behavior;
    var s := tr[i];
    AlwaysSane(s, t);
    var v: nat := 0;
    if !PoolEmpty(s) { v :| v in s.tree.vols && s.tree.vols[v] == Pooled; }
    assert Next(s, Run(t, Choice(0, 0, v)), Operate(s, t, Choice(0, 0, v)));
  }

  // ----- the proviso on pops is needed: the stack word, its links and operations on them

  datatype StackOp = OpPop | OpPush(h: nat)

  /** A stack operation that completes without interference. */
  function Complete(st: Stack, op: StackOp): Stack {
    match op
    case OpPop => Stack((st.ver + 1) % BLOCK, Top(DropLast(st.items)), st.ops + 1, DropLast(st.items))
    case OpPush(h) => Stack((st.ver + 1) % BLOCK, h, st.ops + 1, st.items + [h])
  }

  function CompleteAll(st: Stack, ops: seq<StackOp>): Stack
    decreases |ops|
  {
    if ops == [] then st else CompleteAll(Complete(st, ops[0]), ops[1..])
  }

  function Churn(h: nat, n: nat): seq<StackOp> {
    if n == 0 then [] else [OpPop, OpPush(h)] + Churn(h, n - 1)
  }

  lemma {:induction false} CompleteCounts(st: Stack, ops: seq<StackOp>)
    requires st.ver == st.ops % BLOCK
    ensures var u := CompleteAll(st, ops); u.ops == st.ops + |ops| && u.ver == u.ops % BLOCK
    decreases |ops|
  {
    if ops != [] { CompleteCounts(Complete(st, ops[0]), ops[1..]); }
  }

  lemma {:induction false} ChurnKeeps(st: Stack, h: nat, n: nat)
    requires st.items != [] && Top(st.items) == h && st.off == h
    ensures |Churn(h, n)| == 2 * n
    ensures CompleteAll(st, Churn(h, n)).items == st.items && CompleteAll(st, Churn(h, n)).off == h
    decreases n
  {
    if n > 0 {
      var b := Complete(Complete(st, OpPop), OpPush(h));
      assert b.items == st.items;
      ChurnKeeps(b, h, n - 1);
      var ops := Churn(h, n);
      assert ops[1..][1..] == Churn(h, n - 1);
      assert CompleteAll(st, ops) == CompleteAll(b, Churn(h, n - 1));
    }
  }

  lemma {:induction false} CompleteAppend(st: Stack, p: seq<StackOp>, q: seq<StackOp>)
    ensures CompleteAll(st, p + q) == CompleteAll(CompleteAll(st, p), q)
    decreases |p|
  {
    if p == [] {
      assert p + q == q;
    } else {
      assert (p + q)[1..] == p[1..] + q;
      CompleteAppend(Complete(st, p[0]), p[1..], q);
    }
  }

  lemma RebuildItems(a: nat, b: nat, c: nat, before: Stack)
    requires before.items == [a, b]
    ensures var mid := CompleteAll(before, [OpPop, OpPop, OpPush(c), OpPush(b)]); mid.items == [c, b] && mid.off == b
  {
    var s2 := Complete(Complete(before, OpPop), OpPop);
    assert s2.items == [];
    var ops := [OpPop, OpPop, OpPush(c), OpPush(b)];
    assert ops[1..] == [OpPop, OpPush(c), OpPush(b)] && ops[1..][1..] == [OpPush(c), OpPush(b)];
    var s4 := Complete(Complete(s2, OpPush(c)), OpPush(b));
    assert CompleteAll(s2, [OpPush(c), OpPush(b)]) == s4 by {
      assert [OpPush(c), OpPush(b)][1..] == [OpPush(b)] && [OpPush(b)][1..] == [];
      CompleteAppend(s2, [OpPush(c)], [OpPush(b)]);
    }
  }

  /** Once a whole turn of the tag has completed, it matches again: a pop that
      loaded (ver, b) over a, and whose stack was meanwhile rebuilt as b over c,
      swaps in a although c is the superblock below. The operations in between are
      completed ones on the stack alone; the threads doing them are not modelled
      here. */
  lemma LatePopBreaks(a: nat, b: nat, c: nat, before: Stack, n: nat)
    requires a != c && before.ver == before.ops % BLOCK && before.off == b && before.items == [a, b]
    requires 4 + 2 * n == BLOCK
    ensures var after := CompleteAll(before, [OpPop, OpPop, OpPush(c), OpPush(b)] + Churn(b, n));
            && after.ops == before.ops + BLOCK
            && after.ver == before.ver && after.off == before.off
            && var w := View(before.ver, b, before.ops);
               PoppedStack(after, w, Link(before.items, 1)).off != Top(DropLast(after.items))
  {
    var rebuild := [OpPop, OpPop, OpPush(c), OpPush(b)];
    var mid := CompleteAll(before, rebuild);
    RebuildItems(a, b, c, before);
    ChurnKeeps(mid, b, n);
    CompleteAppend(before, rebuild, Churn(b, n));
    CompleteCounts(before, rebuild + Churn(b, n));
  }

  // ----- the packed word

  lemma AlignedMultiple(i: nat, f: nat)
    requires f % BLOCK == 0
    ensures (i * f) % BLOCK == 0
  {
    var q := f / 512;
    assert i * f == 512 * (i * q) by {
      assert f == 512 * q;
      Regroup(i, q);
    }
  }

  lemma Regroup(i: int, q: int)
    ensures i * (512 * q) == 512 * (i * q)
  {
  }

  lemma SumAligned(a: nat, b: nat)
    requires a % BLOCK == 0 && b % BLOCK == 0
    ensures (a + BLOCK + b) % BLOCK == 0
  {
    var p, q := a / 512, b / 512;
    assert a == 512 * p && b == 512 * q;
    assert a + 512 + b == 512 * (p + 1 + q);
  }

  lemma RootAligned(v: nat)
    ensures RootOff(v) % BLOCK == 0
  {
    AlignedMultiple(v, VOLUME);
    SumAligned(0, v * VOLUME);
  }

  lemma ObjectAligned(s: Tree, x: Obj)
    requires ValidCfg(s.cfg) && x.sb in s.sbs && s.sbs[x.sb].szc < |s.cfg| && x.sb % BLOCK == 0
    ensures ObjOff(s, x) % BLOCK == 0
  {
    assert ValidRow(s.cfg, s.sbs[x.sb].szc);
    AlignedMultiple(x.idx, Footprint(s, x.sb));
    SumAligned(x.sb, x.idx * Footprint(s, x.sb));
  }

  /** Superblock offsets are block multiples, so the low bits of the stack word
      are the tag's alone. */
  lemma {:induction false} OffsetsAligned(s: Tree, o: nat)
    requires TreeInv(s) && o in s.sbs
    ensures o % BLOCK == 0
    decreases |s.cfg| - s.sbs[o].szc
  {
    hide ObjOff;
    assert SbOk(s, o);
    if s.sbs[o].parent.InObject? {
      var x := s.sbs[o].parent.x;
      ChildInside(s, o);
      OffsetsAligned(s, x.sb);
      ObjectAligned(s, x);
    } else {
      RootAligned(s.sbs[o].parent.v);
    }
  }

  /** Comparing packed words compares tag and offset. */
  lemma WordInjective(ver: nat, off: nat, ver': nat, off': nat)
    requires ver < BLOCK && ver' < BLOCK && off % BLOCK == 0 && off' % BLOCK == 0
    ensures ver + off == ver' + off' ==> ver == ver' && off == off'
  {
    assert (ver + off) % BLOCK == ver && (ver' + off') % BLOCK == ver';
  }

  /** All of it, for the shipped size-class table. */
  lemma GrooveIsSafe(tr: seq<State>, ls: seq<Label>, i: nat)
    requires Behavior(SZC_CFG, tr, ls) && i < |tr|
    ensures forall o :: OnePlace(tr[i], o)
    ensures forall x :: Live(tr[i], x) ==> WellPlaced(tr[i], x)
    ensures forall t :: Sane(tr[i], t)
  {
    TableIsValid();
    hide Behavior, OnePlace, WellPlaced, Sane;
    forall o ensures OnePlace(tr[i], o) { ReachableOnePlace(SZC_CFG, tr, ls, i, o); }
    forall x | Live(tr[i], x) ensures WellPlaced(tr[i], x) { ReachableWellPlaced(SZC_CFG, tr, ls, i, x); }
    BehaviorInv(SZC_CFG, tr, ls, i);
    hide Inv;
    forall t ensures Sane(tr[i], t) { AlwaysSane(tr[i], t); }
  }
}
