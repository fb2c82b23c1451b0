/** Free gives memory back: completely free superblocks on top of their stack return to
    the objects or volumes they were carved from. */
module GrooveBack {
  import opened Basics
  import opened GrooveState
  import opened GrooveTree
  import opened GrooveAlloc
  import opened GrooveSafety
  import opened GrooveOutcome
  import opened GrooveSolo

  /** What a free has done so far: it makes no superblock and changes none but by freeing
      objects; where one is gone, the object it was carved from is free in its own
      superblock, that superblock is gone as well, or the thread still has the object; a
      volume it filled is pooled or with the thread. */
  ghost predicate GivenBack(s0: State, s: State, t: nat) {
    && s.tree.cfg == s0.tree.cfg
    && (forall o | o in s.tree.sbs :: o in s0.tree.sbs && Kept(s0.tree.sbs[o], s.tree.sbs[o]))
    && (forall o | o in s0.tree.sbs && o !in s.tree.sbs :: Restored(s, t, s0.tree.sbs[o].parent))
  }

  predicate Kept(a: Superblock, b: Superblock) {
    b.szc == a.szc && b.parent == a.parent && a.free <= b.free
  }

  predicate Restored(s: State, t: nat, p: Parent) {
    match p
    case InObject(x) => x.sb in s.tree.sbs ==> x.idx in s.tree.sbs[x.sb].free || Th(s, t).obj == Some(x)
    case InVolume(v) => v in s.tree.vols && (s.tree.vols[v] == Pooled || Th(s, t).vol == Some(v))
  }

  // ----- every step of a free keeps that

  /** Steps that leave superblocks, volumes and what the thread has alone. */
  lemma SameBack(s0: State, s: State, s': State, t: nat)
    requires GivenBack(s0, s, t) && s'.tree == s.tree && Th(s', t).obj == Th(s, t).obj && Th(s', t).vol == Th(s, t).vol
    ensures GivenBack(s0, s', t)
  {
  }

  lemma LinkBack(s0: State, s: State, t: nat)
    requires GivenBack(s0, s, t) && Th(s, t).pc.PushLink? && Th(s, t).hand in s.tree.sbs
    ensures GivenBack(s0, LinkInfo(s, t), t)
  {
  }

  lemma GiveBack(s0: State, s: State, t: nat)
    requires GivenBack(s0, s, t) && Th(s, t).obj.Some? && Th(s, t).obj.value.sb in s.tree.sbs
    requires Th(s, t).szc < |s.tree.cfg|
    ensures GivenBack(s0, GiveStep(s, t), t)
  {
    var s' := GiveStep(s, t);
    assert Th(s', t).vol == Th(s, t).vol;
    forall o | o in s0.tree.sbs && o !in s'.tree.sbs
      ensures Restored(s', t, s0.tree.sbs[o].parent)
    {
      assert Restored(s, t, s0.tree.sbs[o].parent);
    }
  }

  lemma UncarveBack(s0: State, s: State, t: nat)
    requires GivenBack(s0, s, t) && Th(s, t).hand in s.tree.sbs && Th(s, t).obj == None && Th(s, t).vol == None
    ensures GivenBack(s0, UncarveStep(s, t), t)
    ensures Th(s, t).hand !in UncarveStep(s, t).tree.sbs
  {
    var s' := UncarveStep(s, t);
    forall o | o in s0.tree.sbs && o !in s'.tree.sbs
      ensures Restored(s', t, s0.tree.sbs[o].parent)
    {
      if o != Th(s, t).hand { assert Restored(s, t, s0.tree.sbs[o].parent); }
    }
  }

  lemma ReleaseBack(s0: State, s: State, t: nat)
    requires GivenBack(s0, s, t) && Th(s, t).vol.Some?
    ensures GivenBack(s0, ReleaseVolumeStep(s, t), t)
  {
    var s' := ReleaseVolumeStep(s, t);
    forall o | o in s0.tree.sbs && o !in s'.tree.sbs
      ensures Restored(s', t, s0.tree.sbs[o].parent)
    {
      assert Restored(s, t, s0.tree.sbs[o].parent);
    }
  }

  lemma FreeKnown(s: State, t: nat)
    requires Inv(s) && !Th(s, t).allocating
    ensures Sane(s, t) && InMode(Th(s, t))
    ensures Th(s, t).pc.CheckPopped? || Th(s, t).pc.SlotPut? || Th(s, t).pc.PushCas? || Th(s, t).pc.PopCas? ==>
      Th(s, t).obj == None && Th(s, t).vol == None
  {
    hide Inv, Sane, StackOk, Chain, InMode;
    AlwaysSane(s, t);
    ModeKnown(s, t);
    LocalKnown(s, t);
  }

  lemma OperateBack(s0: State, s: State, t: nat, c: Choice)
    requires Inv(s) && !Th(s, t).allocating && !Th(s, t).pc.Idle? && GivenBack(s0, s, t)
    ensures Sane(s, t) && GivenBack(s0, Operate(s, t, c), t)
  {
    hide Inv, AfterQuiet, GivenBack, Give, Uncarve, LinkInfo, GiveStep, UncarveStep;
    FreeKnown(s, t);
    var l := Th(s, t);
    if Quiet(s, t) {
      QuietMoves(s, t, c);
      SameBack(s0, s, Operate(s, t, c), t);
    } else if l.pc.PushLink? {
      LinkBack(s0, s, t);
    } else if l.pc.FreeObject? {
      GiveBack(s0, s, t);
    } else if l.pc.ReleaseVolume? {
      ReleaseBack(s0, s, t);
    } else if l.pc.CheckPopped? {
      if |s.tree.sbs[l.hand].free| < s.tree.cfg[l.szc].objCnt {
        SameBack(s0, s, Operate(s, t, c), t);
      } else {
        UncarveBack(s0, s, t);
      }
    } else {
      SameBack(s0, s, Operate(s, t, c), t);
    }
  }

  lemma StepBack(s0: State, s: State, t: nat, g: nat -> nat, s': State)
    requires Inv(s) && !Th(s, t).allocating && GivenBack(s0, s, t) && StepIn(s, t, g, s')
    ensures Inv(s') && GivenBack(s0, s', t) && !Th(s', t).allocating
  {
    hide Inv, GivenBack, Operate, Sane;
    var c: Choice :| c.cgroup == g(Th(s, t).szc) && Next(s, Run(t, c), s');
    NextInv(s, Run(t, c), s');
    OperateBack(s0, s, t, c);
    OperateMoves(s, t, c);
  }

  lemma {:induction false} RunBack(tr: seq<State>, t: nat, g: nat -> nat, k: nat, i: nat)
    requires SoloIn(tr, t, g) && k <= i < |tr| && Inv(tr[k]) && !Th(tr[k], t).allocating
    ensures Inv(tr[i]) && GivenBack(tr[k], tr[i], t) && !Th(tr[i], t).allocating
    decreases i
  {
    hide Inv, GivenBack, StepIn;
    if i == k {
      NothingBack(tr[k], t);
    } else {
      RunBack(tr, t, g, k, i - 1);
      assert StepIn(tr[i - 1], t, g, tr[i]);
      StepBack(tr[k], tr[i - 1], t, g, tr[i]);
    }
  }

  lemma NothingBack(s: State, t: nat)
    ensures GivenBack(s, s, t)
  {
  }

  // ----- what a free achieves alone

  /** The free of thread t's object makes its superblock completely free, and o, on top of
      the inactive stack of the class, is completely free then as well. */
  predicate CanShrink(s: State, t: nat, o: nat)
    requires Sane(s, t) && Th(s, t).pc.FreeObject?
  {
    var l := Th(s, t);
    var after := GiveStep(s, t).tree.sbs;
    && |after[l.obj.value.sb].free| == s.tree.cfg[l.szc].objCnt
    && o != 0 && s.stacks[l.szc].off == o && o in after && |after[o].free| == s.tree.cfg[l.szc].objCnt
  }

  /** Alone, such a free ends with o gone. Every superblock that is gone left behind a
      free object in a superblock that remains, or in one that is gone too, or a volume
      back in the pool. */
  lemma FreeAlone(tr: seq<State>, t: nat, g: nat -> nat, o: nat)
    requires SoloIn(tr, t, g) && Inv(tr[0]) && Th(tr[0], t).pc.FreeObject? && Th(tr[|tr| - 1], t).pc.Idle?
    requires Sane(tr[0], t) && CanShrink(tr[0], t, o)
    ensures o in tr[0].tree.sbs && o !in tr[|tr| - 1].tree.sbs
    ensures GivenBack(tr[0], tr[|tr| - 1], t) && Th(tr[|tr| - 1], t).obj == None && Th(tr[|tr| - 1], t).vol == None
  {
    hide Inv, StepIn, GivenBack, Sane;
    var s, last := tr[0], |tr| - 1;
    ModeKnown(s, t);
    RunBack(tr, t, g, 0, last);
    IdleEmpty(tr[last], t);
    SoloInStep(tr, t, g, 0);
    FirstGive(s, t, g, tr[1], o);
    PopAlone(tr, t, g, 1);
    SoloInStep(tr, t, g, 4);
    PoppedGone(tr[4], t, g, tr[5], o);
    RunBack(tr, t, g, 5, last);
    StaysGone(tr[5], tr[last], t, o);
  }

  lemma StaysGone(s0: State, s: State, t: nat, o: nat)
    requires GivenBack(s0, s, t) && o !in s0.tree.sbs
    ensures o !in s.tree.sbs
  {
  }

  lemma IdleEmpty(s: State, t: nat)
    requires Inv(s) && Th(s, t).pc.Idle?
    ensures Th(s, t).obj == None && Th(s, t).vol == None
  {
    hide Inv, StackOk, Chain;
    LocalKnown(s, t);
  }

  lemma FirstGive(s: State, t: nat, g: nat -> nat, s': State, o: nat)
    requires Inv(s) && Sane(s, t) && Th(s, t).pc.FreeObject? && StepIn(s, t, g, s') && CanShrink(s, t, o)
    ensures o in s.tree.sbs && o in s'.tree.sbs && s'.tree.cfg == s.tree.cfg
    ensures Th(s', t).pc.PopLoad? && !Th(s', t).allocating && Th(s', t).szc == Th(s, t).szc
    ensures Th(s, t).szc < |s'.stacks| && s'.stacks[Th(s, t).szc].off == o
    ensures |s'.tree.sbs[o].free| == s'.tree.cfg[Th(s, t).szc].objCnt
  {
    hide Inv, StackOk, Chain;
    ModeKnown(s, t);
    CfgKnown(s, Th(s, t).szc);
    var c: Choice :| c.cgroup == g(Th(s, t).szc) && Next(s, Run(t, c), s');
    assert s' == GiveStep(s, t);
  }

  lemma PoppedGone(s: State, t: nat, g: nat -> nat, s': State, o: nat)
    requires Inv(s) && StepIn(s, t, g, s') && Th(s, t).pc.CheckPopped? && Th(s, t).hand == o && o in s.tree.sbs
    requires Th(s, t).szc < |s.tree.cfg| && |s.tree.sbs[o].free| == s.tree.cfg[Th(s, t).szc].objCnt
    ensures o !in s'.tree.sbs && !Th(s', t).allocating
  {
    hide Inv, InMode;
    ModeKnown(s, t);
    CheckMode(s, t);
    var c: Choice :| c.cgroup == g(Th(s, t).szc) && Next(s, Run(t, c), s');
    assert s' == UncarveStep(s, t);
  }

  lemma CheckMode(s: State, t: nat)
    requires InMode(Th(s, t)) && Th(s, t).pc.CheckPopped?
    ensures !Th(s, t).allocating
  {
  }

  // ----- when a search and a free stop

  /** Alloc goes for a new superblock only from a moment at which the inactive stack of the
      class was empty, however often it lost a race before. */
  lemma SearchedStack(s: State, t: nat, c: Choice, s': State)
    requires Inv(s) && Next(s, Run(t, c), s') && Th(s', t).pc.NewSuperblock?
    ensures Th(s, t).pc.PopLoad? && Th(s, t).allocating && Th(s', t).szc == Th(s, t).szc < |s.stacks|
    ensures s.stacks[Th(s, t).szc].items == []
  {
    hide Inv, Sane, Operate;
    OnlyFromLoad(s, t, c);
    LocalSzc(s, t);
    StackEmpty(s, Th(s, t).szc);
  }

  lemma OnlyFromLoad(s: State, t: nat, c: Choice)
    requires Sane(s, t) && !Th(s, t).pc.Idle? && Th(Operate(s, t, c), t).pc.NewSuperblock?
    ensures Th(s, t).pc.PopLoad? && Th(s, t).allocating && Th(Operate(s, t, c), t).szc == Th(s, t).szc
    ensures s.stacks[Th(s, t).szc].off == 0
  {
    hide Operate;
    if Quiet(s, t) {
      QuietMoves(s, t, c);
    } else {
      NoneSearches(s, t, c);
    }
  }

  lemma NoneSearches(s: State, t: nat, c: Choice)
    requires Sane(s, t) && !Th(s, t).pc.Idle? && !Quiet(s, t)
    ensures !Th(Operate(s, t, c), t).pc.NewSuperblock?
  {
    hide Lsb, ObjOff, Take, Give, Carve, CarveVolume, Uncarve, AfterQuiet;
  }

  lemma StackEmpty(s: State, z: nat)
    requires Inv(s) && z < |s.stacks| && s.stacks[z].off == 0
    ensures s.stacks[z].items == []
  {
    StackKnown(s, z);
    if s.stacks[z].items != [] { SbKnown(s, Top(s.stacks[z].items)); }
  }

  /** Nothing is left for the free of thread t to do. */
  predicate NothingLeft(s: State, s': State, t: nat) {
    var l := Th(s, t);
    match l.pc
    case FreeObject =>
      && l.obj.Some? && l.obj.value.sb in s.tree.sbs && l.obj.value.sb in s'.tree.sbs && l.szc < |s.tree.cfg|
      && s.tree.sbs[l.obj.value.sb].free != {}
      && |s'.tree.sbs[l.obj.value.sb].free| < s.tree.cfg[l.szc].objCnt
    case PopLoad => l.szc < |s.stacks| && s.stacks[l.szc].items == []
    case SlotPut => l.hand in s'.loc && s'.loc[l.hand].ActiveSlot?
    case PushCas(_) => l.hand in s'.loc && s'.loc[l.hand].InactiveStack?
    case ReleaseVolume => l.vol.Some? && l.vol.value in s'.tree.vols && s'.tree.vols[l.vol.value] == Pooled
    case _ => false
  }

  /** A free stops when its superblock was in circulation and is not completely free, when
      there is no other to give back, when the superblock it has is in a slot or on a stack
      again, or when its volume is in the pool. */
  lemma FreeEnds(s: State, t: nat, c: Choice, s': State)
    requires Inv(s) && Next(s, Run(t, c), s') && !Th(s, t).allocating && Th(s', t).pc.Idle?
    ensures NothingLeft(s, s', t)
  {
    hide Inv, Lsb, ObjOff, Take, Carve, CarveVolume, Uncarve, Chain;
    NextInv(s, Run(t, c), s');
    LocalKnown(s, t);
    if Th(s, t).pc.FreeObject? {
      GivenFits(s, s', t);
    } else if Th(s, t).hand in s.tree.sbs {
      HandKnown(s, t);
    } else if s.stacks[Th(s, t).szc].off == 0 {
      StackEmpty(s, Th(s, t).szc);
    }
  }

  lemma GivenFits(s: State, s': State, t: nat)
    requires Inv(s) && Inv(s') && Th(s, t).pc.FreeObject? && Sane(s, t) && s' == GiveStep(s, t)
    ensures var x := Th(s, t).obj.value;
      |s'.tree.sbs[x.sb].free| == |s.tree.sbs[x.sb].free| + 1 <= s.tree.cfg[Th(s, t).szc].objCnt
  {
    hide Inv, StackOk, Chain, ParentOk;
    var x := Th(s, t).obj.value;
    LocalKnown(s, t);
    HeldOut(s, t);
    SbKnown(s', x.sb);
    FullIsAll(s'.tree.sbs[x.sb].free, s.tree.cfg[Th(s, t).szc].objCnt);
  }

  lemma HeldOut(s: State, t: nat)
    requires Inv(s) && Th(s, t).obj.Some? && Th(s, t).obj.value.sb in s.tree.sbs
    ensures Th(s, t).obj.value.idx !in s.tree.sbs[Th(s, t).obj.value.sb].free
  {
    hide StackInv, CirculationInv, ThreadsInv, SbOk;
    assert HasOk(s, t);
    OwnKnown(s, Th(s, t).obj.value);
  }
}
