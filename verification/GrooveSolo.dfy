/** A thread that runs alone finishes: alloc hands out an object, free gives back what
    has become completely free. */
module GrooveSolo {
  import opened Basics
  import opened GrooveConfig
  import opened GrooveState
  import opened GrooveTree
  import opened GrooveAlloc
  import opened GrooveSafety
  import opened GrooveOutcome

  // ----- how far a thread is from being done

  /** Nothing completed on the stack since w was loaded, as far as the word tells. */
  predicate Unchanged(s: State, z: nat, w: View) {
    z < |s.stacks| && s.stacks[z].ver == w.ver && s.stacks[z].off == w.off
  }

  /** Alloc has not yet found a superblock with a free object. */
  predicate Searching(pc: Pc) {
    pc.SlotTest? || pc.SlotTake? || pc.PopLoad? || pc.PopRead? || pc.PopCas? || pc.NewSuperblock? || pc.FormatVolume?
  }

  /** Steps left on this floor; a stale word costs another round. */
  function Steps(s: State, l: Local): nat {
    match l.pc
    case Idle => 0
    case SlotTest => 13
    case SlotTake => 12
    case PopRead(w) => if Unchanged(s, l.szc, w) then 8 else 11
    case PopCas(w, _) => if Unchanged(s, l.szc, w) then 7 else 10
    case PopLoad => 9
    case NewSuperblock => 5
    case FormatVolume => 4
    case PickObject => 9
    case TakeObject(_) => 8
    case SlotPut => 7
    case PushLink(w) => if Unchanged(s, l.szc, w) then 3 else 6
    case PushCas(w) => if Unchanged(s, l.szc, w) then 2 else 5
    case PushLoad => 4
    case GotObject => 1
    case FreeObject => 12
    case CheckPopped => 6
    case ReleaseVolume => 1
  }

  /** Classes still to go through: alloc up while it searches and down again, free up. */
  function Floors(s: State, l: Local): nat {
    var up := if l.szc < |s.tree.cfg| then |s.tree.cfg| - l.szc else 0;
    if !l.allocating then up else if Searching(l.pc) then |l.rest| + 2 * up else |l.rest|
  }

  /** A bound on the steps a thread needs if no other thread interferes. */
  function Rank(s: State, t: nat): nat {
    if Th(s, t).pc.Idle? then 0 else 20 * Floors(s, Th(s, t)) + Steps(s, Th(s, t))
  }

  /** Which operations belong to alloc alone and which to free alone. */
  predicate InMode(l: Local) {
    && ((l.pc.SlotTest? || l.pc.SlotTake? || l.pc.NewSuperblock? || l.pc.FormatVolume? || l.pc.PickObject?
         || l.pc.TakeObject? || l.pc.GotObject?) ==> l.allocating)
    && (l.pc.FreeObject? || l.pc.CheckPopped? || l.pc.ReleaseVolume? ==> !l.allocating)
  }

  lemma ModeKnown(s: State, t: nat)
    requires Inv(s)
    ensures InMode(Th(s, t)) && Th(s, t).szc < |s.stacks| == |s.tree.cfg|
    ensures Th(s, t).szc < s.tree.cfg[Th(s, t).szc].parentSzc
  {
    hide Inv, StackOk, Chain, ValidCfg;
    LocalKnown(s, t);
    CfgKnown(s, Th(s, t).szc);
  }

  lemma QuietFalls(s: State, t: nat, c: Choice)
    requires Inv(s) && Sane(s, t) && Quiet(s, t)
    ensures Rank(SetLocal(s, t, Th(s, t).(pc := AfterQuiet(s, t, c))), t) < Rank(s, t)
  {
    hide Inv, Lsb;
    ModeKnown(s, t);
  }

  lemma ExchangeFalls(s: State, t: nat, c: nat)
    requires Inv(s) && (Th(s, t).pc.SlotTake? || Th(s, t).pc.SlotPut?)
    ensures Rank(Exchange(s, t, c), t) < Rank(s, t)
  {
    hide Inv;
    ModeKnown(s, t);
  }

  lemma PopFalls(s: State, t: nat)
    requires Inv(s) && PopMatches(s, t)
    ensures Rank(Pop(s, t), t) < Rank(s, t)
  {
    hide Inv, PoppedStack;
    ModeKnown(s, t);
  }

  lemma PushFalls(s: State, t: nat)
    requires Inv(s) && Th(s, t).pc.PushCas? && Th(s, t).szc < |s.stacks|
    ensures Rank(Push(s, t), t) < Rank(s, t)
  {
    hide Inv, PushedStack;
    ModeKnown(s, t);
  }

  lemma LinkFalls(s: State, t: nat)
    requires Th(s, t).pc.PushLink? && Th(s, t).hand in s.tree.sbs
    ensures Rank(LinkInfo(s, t), t) < Rank(s, t)
  {
  }

  lemma TakeFalls(s: State, t: nat)
    requires Inv(s) && Th(s, t).pc.TakeObject? && Th(s, t).hand in s.tree.sbs
    ensures Rank(TakeStep(s, t), t) < Rank(s, t)
  {
    hide Inv;
    ModeKnown(s, t);
  }

  lemma GiveFalls(s: State, t: nat)
    requires Inv(s) && Th(s, t).pc.FreeObject? && Th(s, t).obj.Some? && Th(s, t).obj.value.sb in s.tree.sbs
    requires Th(s, t).szc < |s.tree.cfg|
    ensures Rank(GiveStep(s, t), t) < Rank(s, t)
  {
    hide Inv;
    ModeKnown(s, t);
  }

  lemma CarveFalls(s: State, t: nat)
    requires Inv(s) && Th(s, t).pc.GotObject? && Th(s, t).rest != [] && Th(s, t).obj.Some?
    requires Th(s, t).obj.value.sb in s.tree.sbs
    requires s.tree.sbs[Th(s, t).obj.value.sb].szc < |s.tree.cfg| && Th(s, t).rest[0] < |s.tree.cfg|
    ensures Rank(CarveStep(s, t), t) < Rank(s, t)
  {
    hide Inv, ObjOff, AllFree;
    ModeKnown(s, t);
  }

  lemma CarveVolumeFalls(s: State, t: nat)
    requires Inv(s) && Th(s, t).pc.FormatVolume? && Th(s, t).vol.Some? && 0 < |s.tree.cfg|
    ensures Rank(CarveVolumeStep(s, t), t) < Rank(s, t)
  {
    hide Inv, RootOff, AllFree;
    ModeKnown(s, t);
  }

  lemma UncarveFalls(s: State, t: nat)
    requires Inv(s) && Th(s, t).pc.CheckPopped? && Th(s, t).hand in s.tree.sbs
    ensures Rank(UncarveStep(s, t), t) < Rank(s, t)
  {
    hide Inv;
    ModeKnown(s, t);
  }

  lemma NewFalls(s: State, t: nat, c: Choice)
    requires Inv(s) && Sane(s, t) && Th(s, t).pc.NewSuperblock?
    ensures Rank(Operate(s, t, c), t) < Rank(s, t)
  {
    hide Inv, PoolEmpty;
    ModeKnown(s, t);
  }

  lemma CheckFalls(s: State, t: nat, c: Choice)
    requires Inv(s) && Sane(s, t) && Th(s, t).pc.CheckPopped?
    ensures Rank(Operate(s, t, c), t) < Rank(s, t)
  {
    hide Inv, UncarveStep;
    ModeKnown(s, t);
    UncarveFalls(s, t);
  }

  lemma ActiveFalls(s: State, t: nat, c: Choice)
    requires Inv(s) && Sane(s, t) && !Quiet(s, t) && !Th(s, t).pc.Idle?
    ensures Rank(Operate(s, t, c), t) < Rank(s, t)
  {
    hide Inv, AfterQuiet, Exchange, Pop, Push, LinkInfo, TakeStep, GiveStep, CarveStep, CarveVolumeStep, UncarveStep;
    match Th(s, t).pc
    case SlotTake => ExchangeFalls(s, t, c.cgroup);
    case SlotPut => ExchangeFalls(s, t, c.cgroup);
    case PopCas(w, next) => PopFalls(s, t);
    case NewSuperblock => NewFalls(s, t, c);
    case FormatVolume => CarveVolumeFalls(s, t);
    case TakeObject(i) => TakeFalls(s, t);
    case PushLink(w) => LinkFalls(s, t);
    case PushCas(w) => PushFalls(s, t);
    case GotObject => if Th(s, t).rest != [] { CarveFalls(s, t); }
    case FreeObject => GiveFalls(s, t);
    case CheckPopped => CheckFalls(s, t, c);
    case _ =>
  }

  /** Every step of a thread brings it closer to being done, whatever the environment
      decides. */
  lemma RankFalls(s: State, t: nat, c: Choice, s': State)
    requires Inv(s) && Next(s, Run(t, c), s')
    ensures Rank(s', t) < Rank(s, t)
  {
    hide Inv, Operate, Sane, Rank, AfterQuiet;
    if Quiet(s, t) {
      QuietMoves(s, t, c);
      QuietFalls(s, t, c);
    } else {
      ActiveFalls(s, t, c);
    }
  }

  lemma QuietMoves(s: State, t: nat, c: Choice)
    requires Sane(s, t) && Quiet(s, t)
    ensures Operate(s, t, c) == SetLocal(s, t, Th(s, t).(pc := AfterQuiet(s, t, c)))
  {
    hide AfterQuiet, FieldOk;
  }

  // ----- runs of one thread

  ghost predicate StepOf(s: State, t: nat, s': State) {
    exists c :: Next(s, Run(t, c), s')
  }

  /** Consecutive steps of thread t with no other thread in between. */
  ghost predicate Solo(tr: seq<State>, t: nat) {
    |tr| > 0 && forall i: nat :: i < |tr| - 1 ==> StepOf(tr[i], t, tr[i + 1])
  }

  lemma StepFalls(s: State, t: nat, s': State)
    requires Inv(s) && StepOf(s, t, s')
    ensures Inv(s') && Rank(s', t) < Rank(s, t)
  {
    hide Inv, Rank, Next;
    var c :| Next(s, Run(t, c), s');
    NextInv(s, Run(t, c), s');
    RankFalls(s, t, c, s');
  }

  /** A thread that runs alone is done after at most Rank steps, whatever the
      environment decides and whatever state the others left. */
  lemma {:induction false} SoloBounded(tr: seq<State>, t: nat, i: nat)
    requires Solo(tr, t) && Inv(tr[0]) && i < |tr|
    ensures Inv(tr[i]) && i + Rank(tr[i], t) <= Rank(tr[0], t)
    decreases i
  {
    if i > 0 {
      SoloBounded(tr, t, i - 1);
      hide Inv, Rank, StepOf;
      assert StepOf(tr[i - 1], t, tr[i]);
      StepFalls(tr[i - 1], t, tr[i]);
    }
  }

  /** The word a pop loaded is fewer than 512 operations old. */
  predicate Timely(s: State, t: nat) {
    var l := Th(s, t);
    l.szc < |s.stacks| && (l.pc.PopRead? || l.pc.PopCas?) ==> s.stacks[l.szc].ops < l.pc.view.ops + BLOCK
  }

  lemma StepTimely(s: State, t: nat, c: Choice)
    requires Inv(s) && Sane(s, t) && !Th(s, t).pc.Idle? && Timely(s, t)
    ensures Timely(Operate(s, t, c), t)
  {
    hide Inv, Operate, Timely;
    if Quiet(s, t) {
      QuietMoves(s, t, c);
      QuietTimely(s, t, c);
    } else {
      MovesTimely(s, t, c);
    }
  }

  lemma QuietTimely(s: State, t: nat, c: Choice)
    requires Sane(s, t) && Quiet(s, t) && Timely(s, t)
    ensures Timely(SetLocal(s, t, Th(s, t).(pc := AfterQuiet(s, t, c))), t)
  {
  }

  /** No step that changes memory loads the word of a stack. */
  lemma MovesTimely(s: State, t: nat, c: Choice)
    requires Sane(s, t) && !Quiet(s, t) && !Th(s, t).pc.Idle?
    ensures Timely(Operate(s, t, c), t)
  {
    hide Lsb, ObjOff, AllFree, Take, Give, Carve, CarveVolume, Uncarve, AfterQuiet;
  }

  /** A step of thread t whose concurrency group is g of the size class. */
  ghost predicate StepIn(s: State, t: nat, g: nat -> nat, s': State) {
    exists c: Choice :: c.cgroup == g(Th(s, t).szc) && Next(s, Run(t, c), s')
  }

  /** Consecutive steps of thread t, whose hint gives class z the concurrency group g(z). */
  ghost predicate SoloIn(tr: seq<State>, t: nat, g: nat -> nat) {
    |tr| > 0 && forall i: nat :: i < |tr| - 1 ==> StepIn(tr[i], t, g, tr[i + 1])
  }

  lemma StepInIsStep(s: State, t: nat, g: nat -> nat, s': State)
    requires StepIn(s, t, g, s')
    ensures StepOf(s, t, s')
  {
    hide Next;
  }

  lemma SoloInIsSolo(tr: seq<State>, t: nat, g: nat -> nat)
    requires SoloIn(tr, t, g)
    ensures Solo(tr, t)
  {
    hide StepIn, StepOf;
    forall i: nat | i < |tr| - 1 ensures StepOf(tr[i], t, tr[i + 1]) {
      StepInIsStep(tr[i], t, g, tr[i + 1]);
    }
  }

  lemma StepExists(s: State, t: nat, g: nat -> nat) returns (s': State)
    requires Inv(s) && !Th(s, t).pc.Idle? && Timely(s, t)
    ensures StepIn(s, t, g, s') && Timely(s', t)
  {
    hide Inv, Operate, Sane;
    AlwaysSane(s, t);
    var v: nat := 0;
    if !PoolEmpty(s) { v :| v in s.tree.vols && s.tree.vols[v] == Pooled; }
    var c := Choice(g(Th(s, t).szc), 0, v);
    s' := Operate(s, t, c);
    assert Next(s, Run(t, c), s');
    StepTimely(s, t, c);
  }

  /** And it can always run to its end. */
  lemma {:induction false} SoloFinishes(s: State, t: nat, g: nat -> nat) returns (tr: seq<State>)
    requires Inv(s) && Timely(s, t)
    ensures SoloIn(tr, t, g) && tr[0] == s && Th(tr[|tr| - 1], t).pc.Idle?
    decreases Rank(s, t)
  {
    hide Inv, StepIn, StepOf, Timely, Rank;
    if Th(s, t).pc.Idle? { return [s]; }
    var s' := StepExists(s, t, g);
    StepInIsStep(s, t, g, s');
    StepFalls(s, t, s');
    var rest := SoloFinishes(s', t, g);
    tr := [s] + rest;
    forall i: nat | i < |tr| - 1
      ensures StepIn(tr[i], t, g, tr[i + 1])
    {
      if i > 0 { assert tr[i] == rest[i - 1] && tr[i + 1] == rest[i]; }
    }
  }

  // ----- live objects stay live

  ghost predicate StillLive(s: State, s': State, x: Obj) {
    && Live(s, x) && Live(s', x) && s'.tree.cfg == s.tree.cfg
    && s'.tree.sbs[x.sb].szc == s.tree.sbs[x.sb].szc
  }

  /** No step but the caller's own free takes a live allocation away or moves it. */
  lemma NextKeepsLive(s: State, b: Label, s': State, x: Obj)
    requires Inv(s) && Next(s, b, s') && Live(s, x) && !(b.Free? && b.x == x)
    ensures StillLive(s, s', x)
  {
    hide Inv, Operate, Sane;
    match b
    case Run(t, c) => OperateKeepsLive(s, t, c, x);
    case _ =>
  }

  lemma OperateKeepsLive(s: State, t: nat, c: Choice, x: Obj)
    requires Inv(s) && Sane(s, t) && Live(s, x)
    ensures StillLive(s, Operate(s, t, c), x)
  {
    hide Inv, AfterQuiet, StillLive, Take, Give, CarveStep, CarveVolumeStep, UncarveStep, TakeStep, GiveStep;
    var l := Th(s, t);
    if Quiet(s, t) {
      QuietMoves(s, t, c);
      TreeKeepsLive(s, Operate(s, t, c), x);
    } else if l.pc.TakeObject? {
      TakeKeepsLive(s, t, x);
    } else if l.pc.FreeObject? {
      GiveKeepsLive(s, t, x);
    } else if l.pc.FormatVolume? {
      CarveVolumeKeepsLive(s, t, x);
    } else if l.pc.GotObject? {
      if l.rest == [] { ReturnKeepsLive(s, t, x); } else { CarveKeepsLive(s, t, x); }
    } else if l.pc.CheckPopped? {
      CheckKeepsLive(s, t, c, x);
    } else {
      TreeKeepsLive(s, Operate(s, t, c), x);
    }
  }

  /** Steps that take no superblock away and change no owner. */
  lemma TreeKeepsLive(s: State, s': State, x: Obj)
    requires Live(s, x) && s'.tree.own == s.tree.own && s'.tree.cfg == s.tree.cfg
    requires x.sb in s'.tree.sbs && s'.tree.sbs[x.sb].szc == s.tree.sbs[x.sb].szc
    ensures StillLive(s, s', x)
  {
  }

  lemma TakeKeepsLive(s: State, t: nat, x: Obj)
    requires Inv(s) && Live(s, x) && Th(s, t).pc.TakeObject? && Th(s, t).hand in s.tree.sbs
    requires Th(s, t).pc.i in s.tree.sbs[Th(s, t).hand].free
    ensures StillLive(s, TakeStep(s, t), x)
  {
    hide Inv, ObjOff;
    OwnKnown(s, x);
  }

  lemma GiveKeepsLive(s: State, t: nat, x: Obj)
    requires Inv(s) && Live(s, x) && Th(s, t).obj.Some? && Th(s, t).obj.value.sb in s.tree.sbs
    requires Th(s, t).szc < |s.tree.cfg|
    ensures StillLive(s, GiveStep(s, t), x)
  {
    hide Inv;
    HoldingsKnown(s, t, x, 0);
  }

  lemma ReturnKeepsLive(s: State, t: nat, x: Obj)
    requires Live(s, x) && Th(s, t).obj.Some?
    ensures StillLive(s, ReturnStep(s, t), x)
  {
  }

  lemma CarveKeepsLive(s: State, t: nat, x: Obj)
    requires Inv(s) && Live(s, x) && Th(s, t).pc.GotObject? && Th(s, t).rest != [] && HasObject(s.tree.sbs, Th(s, t))
    requires Th(s, t).szc < |s.tree.cfg| && Th(s, t).rest[0] < |s.tree.cfg|
    ensures StillLive(s, CarveStep(s, t), x)
  {
    hide Inv, ObjOff, AllFree;
    CarveUnused(s, t);
    HoldingsKnown(s, t, x, 0);
  }

  lemma CarveVolumeKeepsLive(s: State, t: nat, x: Obj)
    requires Inv(s) && Live(s, x) && Th(s, t).pc.FormatVolume? && Th(s, t).vol.Some? && 0 < |s.tree.cfg|
    ensures StillLive(s, CarveVolumeStep(s, t), x)
  {
    hide Inv, AllFree, RootOff;
    VolumeUnused(s, t);
  }

  lemma CheckKeepsLive(s: State, t: nat, c: Choice, x: Obj)
    requires Inv(s) && Sane(s, t) && Live(s, x) && Th(s, t).pc.CheckPopped?
    ensures StillLive(s, Operate(s, t, c), x)
  {
    hide Inv, UncarveStep, StillLive;
    var l := Th(s, t);
    if |s.tree.sbs[l.hand].free| < s.tree.cfg[l.szc].objCnt {
      TreeKeepsLive(s, Operate(s, t, c), x);
    } else {
      FullIsAll(s.tree.sbs[l.hand].free, s.tree.cfg[l.szc].objCnt);
      UncarveKeepsLive(s, t, x);
    }
  }

  lemma UncarveKeepsLive(s: State, t: nat, x: Obj)
    requires Inv(s) && Live(s, x) && Th(s, t).pc.CheckPopped? && Th(s, t).hand in s.tree.sbs
    requires Th(s, t).szc < |s.tree.cfg| && |s.tree.sbs[Th(s, t).hand].free| == s.tree.cfg[Th(s, t).szc].objCnt
    ensures StillLive(s, UncarveStep(s, t), x)
  {
    hide Inv, ObjOff;
    UncarveKnown(s, t);
    SbKnown(s, Th(s, t).hand);
  }

  // ----- alloc alone

  /** Thread t is about to alloc an object of class z. */
  predicate Started(s: State, t: nat, z: nat) {
    Th(s, t).pc.SlotTest? && Th(s, t).allocating && Th(s, t).szc == z && Th(s, t).rest == []
  }

  /** What holds of an alloc on its way: its goal, every allocation there was, and the
      pool as long as it may still need it. */
  ghost predicate OnTheWay(s0: State, s: State, t: nat, z: nat) {
    && Th(s, t).allocating && Goal(Th(s, t)) == z
    && (forall x | Live(s0, x) :: Live(s, x))
    && (Searching(Th(s, t).pc) && !Th(s, t).pc.FormatVolume? ==> s.tree.vols == s0.tree.vols)
  }

  lemma SearchStep(s: State, t: nat, c: Choice)
    requires Sane(s, t) && Th(s, t).allocating && InMode(Th(s, t)) && !Th(s, t).pc.Idle?
    ensures var s' := Operate(s, t, c);
      Searching(Th(s', t).pc) && !Th(s', t).pc.FormatVolume? ==>
        Searching(Th(s, t).pc) && !Th(s, t).pc.FormatVolume? && s'.tree.vols == s.tree.vols
  {
    if Quiet(s, t) { QuietMoves(s, t, c); }
  }

  lemma WayStep(s0: State, s: State, t: nat, z: nat, s': State)
    requires Inv(s) && StepOf(s, t, s') && OnTheWay(s0, s, t, z) && !PoolEmpty(s0)
    ensures OnTheWay(s0, s', t, z)
    ensures Th(s', t).pc.Idle? ==> Delivered(s0, s', t, z)
  {
    hide Inv, Operate, Sane, InMode, Searching, Goal, Live, Quiet;
    var c :| Next(s, Run(t, c), s');
    PcKnown(s, t);
    ModeKnown(s, t);
    SearchStep(s, t, c);
    OperateMoves(s, t, c);
    MovesGoal(Th(s, t), Th(s', t));
    forall x | Live(s0, x)
      ensures Live(s', x)
    {
      OperateKeepsLive(s, t, c, x);
    }
    if Th(s', t).pc.Idle? { WayEnds(s0, s, t, z, c); }
  }

  lemma WayEnds(s0: State, s: State, t: nat, z: nat, c: Choice)
    requires Inv(s) && Sane(s, t) && OnTheWay(s0, s, t, z) && !PoolEmpty(s0) && !Th(s, t).pc.Idle?
    requires Th(Operate(s, t, c), t).pc.Idle?
    ensures Delivered(s0, Operate(s, t, c), t, z)
  {
    hide Inv, Sane, Goal, Live;
    var s' := Operate(s, t, c);
    OperateEnds(s, t, c);
    if Delivered(s, s', t, Goal(Th(s, t))) {
      var x :| Delivers(s, s', t, Goal(Th(s, t)), x);
      assert Delivers(s0, s', t, z, x);
    }
  }

  lemma WayStarts(s: State, t: nat, z: nat)
    requires Started(s, t, z)
    ensures OnTheWay(s, s, t, z)
  {
    hide Live;
  }

  lemma {:induction false} WayHolds(tr: seq<State>, t: nat, z: nat, i: nat)
    requires Solo(tr, t) && Inv(tr[0]) && Started(tr[0], t, z) && !PoolEmpty(tr[0]) && i < |tr|
    ensures OnTheWay(tr[0], tr[i], t, z)
    ensures Th(tr[i], t).pc.Idle? ==> Delivered(tr[0], tr[i], t, z)
    decreases i
  {
    hide Inv, OnTheWay, StepOf, Delivered, PoolEmpty, Rank;
    if i == 0 {
      WayStarts(tr[0], t, z);
    } else {
      WayHolds(tr, t, z, i - 1);
      SoloBounded(tr, t, i - 1);
      assert StepOf(tr[i - 1], t, tr[i]);
      WayStep(tr[0], tr[i - 1], t, z, tr[i]);
    }
  }

  /** An alloc that runs alone while the pool has a volume ends with a new live object of
      the class asked for. */
  lemma AllocAlone(tr: seq<State>, t: nat, z: nat)
    requires Solo(tr, t) && Inv(tr[0]) && Started(tr[0], t, z) && !PoolEmpty(tr[0])
    requires Th(tr[|tr| - 1], t).pc.Idle?
    ensures Delivered(tr[0], tr[|tr| - 1], t, z)
  {
    hide Inv, Started, StepOf;
    WayHolds(tr, t, z, |tr| - 1);
  }

  // ----- where alloc looks first

  /** The one step each operation allows. */
  lemma StepInIs(s: State, t: nat, g: nat -> nat, s': State)
    requires Inv(s) && StepIn(s, t, g, s')
    ensures !Th(s, t).pc.Idle? && Sane(s, t)
    ensures Th(s, t).pc.SlotTest? ==>
      s' == SetLocal(s, t, Th(s, t).(pc := if Slot(s, (Th(s, t).szc, g(Th(s, t).szc))) != 0 then SlotTake else PopLoad))
    ensures Th(s, t).pc.SlotTake? || Th(s, t).pc.SlotPut? ==> s' == Exchange(s, t, g(Th(s, t).szc))
    ensures Th(s, t).pc.PickObject? ==>
      s' == SetLocal(s, t, Th(s, t).(pc := TakeObject(Lsb(s.tree.sbs[Th(s, t).hand].free))))
    ensures Th(s, t).pc.TakeObject? ==> s' == TakeStep(s, t)
    ensures Th(s, t).pc.GotObject? && Th(s, t).rest == [] ==> Th(s, t).obj.Some? && s' == ReturnStep(s, t)
  {
    hide Inv, Lsb, ObjOff, Take, Exchange;
    AlwaysSane(s, t);
    var c: Choice :| c.cgroup == g(Th(s, t).szc) && Next(s, Run(t, c), s');
  }

  lemma SoloInStep(tr: seq<State>, t: nat, g: nat -> nat, k: nat)
    requires SoloIn(tr, t, g) && k < |tr| && Inv(tr[k]) && !Th(tr[k], t).pc.Idle? && Th(tr[|tr| - 1], t).pc.Idle?
    ensures k + 1 < |tr| && StepIn(tr[k], t, g, tr[k + 1]) && Inv(tr[k + 1])
  {
    hide Inv, Next;
    assert k != |tr| - 1;
    assert StepIn(tr[k], t, g, tr[k + 1]);
    var c: Choice :| c.cgroup == g(Th(tr[k], t).szc) && Next(tr[k], Run(t, c), tr[k + 1]);
    NextInv(tr[k], Run(t, c), tr[k + 1]);
  }

  /** The object is taken, and the thread is about to return it. */
  ghost predicate Got(s: State, s': State, t: nat, g: nat) {
    var l := Th(s, t);
    && l.hand in s.tree.sbs && s.tree.sbs[l.hand].free != {}
    && var i := Lsb(s.tree.sbs[l.hand].free);
      && Th(s', t) == l.(pc := GotObject, hand := 0, obj := Some(Obj(l.hand, i)))
      && s'.tree == Take(s.tree, Obj(l.hand, i), t)
      && Slot(s', (l.szc, g)) == if s.tree.sbs[l.hand].free == {i} then 0 else l.hand
  }

  /** With a superblock in hand and the slot empty, alloc takes its least free object
      and puts it into the slot. */
  lemma ServeFromHand(tr: seq<State>, t: nat, g: nat -> nat, k: nat) returns (n: nat)
    requires SoloIn(tr, t, g) && k < |tr| && Inv(tr[k]) && Th(tr[|tr| - 1], t).pc.Idle?
    requires Th(tr[k], t).pc.PickObject? && Th(tr[k], t).allocating
    requires Slot(tr[k], (Th(tr[k], t).szc, g(Th(tr[k], t).szc))) == 0
    ensures k < n < |tr| && Inv(tr[n]) && Got(tr[k], tr[n], t, g(Th(tr[k], t).szc))
  {
    hide Inv, SoloIn, StepIn, Lsb, Take, Sane;
    var s := tr[k];
    SoloInStep(tr, t, g, k);
    StepInIs(s, t, g, tr[k + 1]);
    HandFacts(s, t);
    SoloInStep(tr, t, g, k + 1);
    StepInIs(tr[k + 1], t, g, tr[k + 2]);
    if s.tree.sbs[Th(s, t).hand].free == {Lsb(s.tree.sbs[Th(s, t).hand].free)} {
      n := k + 2;
    } else {
      SoloInStep(tr, t, g, k + 2);
      StepInIs(tr[k + 2], t, g, tr[k + 3]);
      n := k + 3;
    }
  }

  lemma HandFacts(s: State, t: nat)
    requires Inv(s) && Th(s, t).pc.PickObject?
    ensures Th(s, t).hand in s.tree.sbs && s.tree.sbs[Th(s, t).hand].free != {} && Th(s, t).obj == None
    ensures Th(s, t).hand != 0
  {
    hide Inv, StackOk;
    LocalKnown(s, t);
    HandKnown(s, t);
  }

  /** The steps of a pop that nothing interferes with. */
  lemma PopStepIs(s: State, t: nat, g: nat -> nat, s': State)
    requires Inv(s) && StepIn(s, t, g, s') && Th(s, t).szc < |s.stacks|
    ensures var st := s.stacks[Th(s, t).szc];
      && (Th(s, t).pc.PopLoad? && st.off != 0 ==>
            s' == SetLocal(s, t, Th(s, t).(pc := PopRead(View(st.ver, st.off, st.ops)))))
      && (Th(s, t).pc.PopRead? && Th(s, t).pc.view.off in s.tree.sbs ==>
            s' == SetLocal(s, t, Th(s, t).(pc := PopCas(Th(s, t).pc.view, s.tree.sbs[Th(s, t).pc.view.off].info))))
      && (Th(s, t).pc.PopCas? && PopMatches(s, t) ==> s' == Pop(s, t))
  {
    hide Inv, Pop;
    var c: Choice :| c.cgroup == g(Th(s, t).szc) && Next(s, Run(t, c), s');
  }

  /** Popping the top of the stack. */
  lemma PopAlone(tr: seq<State>, t: nat, g: nat -> nat, k: nat)
    requires SoloIn(tr, t, g) && k < |tr| && Inv(tr[k]) && Th(tr[|tr| - 1], t).pc.Idle? && Th(tr[k], t).pc.PopLoad?
    requires Th(tr[k], t).szc < |tr[k].stacks| && tr[k].stacks[Th(tr[k], t).szc].off != 0
    ensures var o := tr[k].stacks[Th(tr[k], t).szc].off;
      && k + 3 < |tr| && Inv(tr[k + 3]) && tr[k + 3].tree == tr[k].tree && tr[k + 3].active == tr[k].active
      && Th(tr[k + 3], t) ==
           Th(tr[k], t).(hand := o, pc := if Th(tr[k], t).allocating then PickObject else CheckPopped)
  {
    hide Inv, SoloIn, StepIn, StackOk, PoppedStack;
    SoloInStep(tr, t, g, k);
    PopStepIs(tr[k], t, g, tr[k + 1]);
    TopKnown(tr[k], Th(tr[k], t).szc);
    SoloInStep(tr, t, g, k + 1);
    PopStepIs(tr[k + 1], t, g, tr[k + 2]);
    SoloInStep(tr, t, g, k + 2);
    PopStepIs(tr[k + 2], t, g, tr[k + 3]);
  }

  lemma TopKnown(s: State, z: nat)
    requires Inv(s) && z < |s.stacks| && s.stacks[z].off != 0
    ensures s.stacks[z].off in s.tree.sbs
  {
    StackKnown(s, z);
  }

  /** Object i of superblock o is live and was free; o is in the slot again unless that
      was its last free object. */
  ghost predicate Served(s: State, s': State, z: nat, g: nat, o: nat) {
    && o in s.tree.sbs && s.tree.sbs[o].free != {}
    && var i := Lsb(s.tree.sbs[o].free);
      && !Live(s, Obj(o, i)) && Live(s', Obj(o, i)) && s'.tree.sbs[o].free == s.tree.sbs[o].free - {i}
      && Slot(s', (z, g)) == if s.tree.sbs[o].free == {i} then 0 else o
  }

  /** A thread with its object returns it and is done. */
  lemma ServeEnds(tr: seq<State>, t: nat, g: nat -> nat, k: nat, n: nat)
    requires SoloIn(tr, t, g) && k < n < |tr| && Inv(tr[k]) && Inv(tr[n]) && Th(tr[|tr| - 1], t).pc.Idle?
    requires Got(tr[k], tr[n], t, g(Th(tr[k], t).szc)) && Th(tr[k], t).rest == []
    ensures Served(tr[k], tr[|tr| - 1], Th(tr[k], t).szc, g(Th(tr[k], t).szc), Th(tr[k], t).hand)
  {
    hide Inv, SoloIn, StepIn, Lsb, Sane;
    SoloInStep(tr, t, g, n);
    StepInIs(tr[n], t, g, tr[n + 1]);
    if n + 1 < |tr| - 1 { IdleStops(tr, t, g, n + 1); }
    ServedBy(tr[k], tr[n], t, g(Th(tr[k], t).szc));
  }

  lemma IdleStops(tr: seq<State>, t: nat, g: nat -> nat, k: nat)
    requires SoloIn(tr, t, g) && k < |tr| && Th(tr[k], t).pc.Idle?
    ensures k == |tr| - 1
  {
    hide StepIn;
    if k < |tr| - 1 { StepBusy(tr[k], t, g, tr[k + 1]); }
  }

  lemma StepBusy(s: State, t: nat, g: nat -> nat, s': State)
    ensures StepIn(s, t, g, s') ==> !Th(s, t).pc.Idle?
  {
    hide Operate;
  }

  lemma ServedBy(s: State, m: State, t: nat, g: nat)
    requires Inv(s) && Inv(m) && Got(s, m, t, g)
    ensures Th(m, t).obj.Some? && Served(s, ReturnStep(m, t), Th(s, t).szc, g, Th(s, t).hand)
  {
    hide Inv, Lsb, ObjOff;
    SbKnown(s, Th(s, t).hand);
    OwnKnown(s, Obj(Th(s, t).hand, Lsb(s.tree.sbs[Th(s, t).hand].free)));
  }

  /** Where an alloc alone gets its object: the least free object of the superblock in
      its slot or, with the slot empty, of the one on top of the inactive stack; it takes
      a new superblock only if there is neither. */
  lemma AllocFirst(tr: seq<State>, t: nat, g: nat -> nat, z: nat)
    requires SoloIn(tr, t, g) && Inv(tr[0]) && Started(tr[0], t, z) && Th(tr[|tr| - 1], t).pc.Idle?
    ensures z < |tr[0].stacks|
    ensures var s := tr[0]; var o := if Slot(s, (z, g(z))) != 0 then Slot(s, (z, g(z))) else s.stacks[z].off;
      o != 0 ==> Served(s, tr[|tr| - 1], z, g(z), o)
  {
    hide Inv, StepIn, Lsb, Sane, Served;
    var s := tr[0];
    LocalSzc(s, t);
    SoloInStep(tr, t, g, 0);
    StepInIs(s, t, g, tr[1]);
    if Slot(s, (z, g(z))) != 0 {
      SoloInStep(tr, t, g, 1);
      StepInIs(tr[1], t, g, tr[2]);
      var n := ServeFromHand(tr, t, g, 2);
      ServeEnds(tr, t, g, 2, n);
      ServedFrom(s, tr[2], tr[|tr| - 1], z, g(z), Th(tr[2], t).hand);
    } else if s.stacks[z].off != 0 {
      PopAlone(tr, t, g, 1);
      var n := ServeFromHand(tr, t, g, 4);
      ServeEnds(tr, t, g, 4, n);
      ServedFrom(s, tr[4], tr[|tr| - 1], z, g(z), Th(tr[4], t).hand);
    }
  }

  lemma LocalSzc(s: State, t: nat)
    requires Inv(s)
    ensures Th(s, t).szc < |s.stacks| && (Th(s, t).pc.SlotTest? ==> Th(s, t).hand == 0)
  {
    hide Inv, StackOk;
    LocalKnown(s, t);
  }

  lemma ServedFrom(s: State, m: State, s': State, z: nat, g: nat, o: nat)
    requires m.tree == s.tree && Served(m, s', z, g, o)
    ensures Served(s, s', z, g, o)
  {
    hide Lsb;
  }
}
