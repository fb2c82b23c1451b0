/** What an alloc returns, in every run: an object of the class asked for, or nothing
    because there was no volume left. */
module GrooveOutcome {
  import opened Basics
  import opened GrooveConfig
  import opened GrooveState
  import opened GrooveTree
  import opened GrooveAlloc
  import opened GrooveSafety

  // ----- an alloc returns the class asked for

  /** The class thread t last asked for, in the first i labels, if it was an alloc. */
  function Asked(ls: seq<Label>, i: nat, t: nat): Option<nat>
    requires i <= |ls|
  {
    if i == 0 then None
    else
      match ls[i - 1]
      case Alloc(u, z) => if u == t then Some(z) else Asked(ls, i - 1, t)
      case Free(u, _) => if u == t then None else Asked(ls, i - 1, t)
      case _ => Asked(ls, i - 1, t)
  }

  predicate Allocating(s: State, t: nat) {
    Th(s, t).allocating && !Th(s, t).pc.Idle?
  }

  /** The class at the end of what alloc still has to carve. */
  function Goal(l: Local): nat {
    if l.rest == [] then l.szc else l.rest[|l.rest| - 1]
  }

  lemma OthersStay(s: State, t: nat, c: Choice, u: nat)
    requires Sane(s, t) && u != t
    ensures Th(Operate(s, t, c), u) == Th(s, u)
  {
    hide FieldOk, HasObject, ObjOff;
  }

  /** How a step moves a thread between classes: it stays, alloc goes up to the parent
      class or comes down into what it carved, free goes up. */
  predicate Moves(l: Local, l': Local) {
    && l'.allocating == l.allocating
    && ( || (l'.szc == l.szc && l'.rest == l.rest)
         || l'.rest == [l.szc] + l.rest
         || (l.rest != [] && l'.szc == l.rest[0] && l'.rest == l.rest[1..])
         || !PcAllocates(l.pc))
  }

  lemma OperateMoves(s: State, t: nat, c: Choice)
    requires Sane(s, t) && !Th(s, t).pc.Idle?
    ensures Moves(Th(s, t), Th(Operate(s, t, c), t))
  {
    hide Take, Give, Carve, CarveVolume, Uncarve, AfterQuiet;
  }

  lemma MovesGoal(l: Local, l': Local)
    requires Moves(l, l') && PcAllocates(l.pc)
    ensures Goal(l') == Goal(l)
  {
  }

  /** Operations alloc does. */
  predicate PcAllocates(pc: Pc) {
    !pc.FreeObject? && !pc.CheckPopped? && !pc.ReleaseVolume?
  }

  lemma PcKnown(s: State, t: nat)
    requires Inv(s)
    ensures Sane(s, t) && (Th(s, t).allocating ==> PcAllocates(Th(s, t).pc))
  {
    hide Inv, Sane, StackOk;
    AlwaysSane(s, t);
    LocalKnown(s, t);
  }

  lemma NextGoal(s: State, b: Label, s': State, t: nat)
    requires Inv(s) && Next(s, b, s')
    ensures Allocating(s', t) ==>
      if b.Alloc? && b.t == t then Goal(Th(s', t)) == b.szc
      else !(b.Free? && b.t == t) && Allocating(s, t) && Goal(Th(s', t)) == Goal(Th(s, t))
  {
    hide Inv, Operate, Sane;
    match b
    case Run(u, c) =>
      PcKnown(s, u);
      if u == t {
        OperateMoves(s, u, c);
        if Allocating(s, t) { MovesGoal(Th(s, t), Th(s', t)); }
      } else {
        OthersStay(s, u, c, t);
      }
    case _ =>
  }

  lemma {:induction false} AskedIsGoal(cfg: seq<SzcCfg>, tr: seq<State>, ls: seq<Label>, i: nat, t: nat)
    requires ValidCfg(cfg) && Behavior(cfg, tr, ls) && i < |tr| && Allocating(tr[i], t)
    ensures Asked(ls, i, t) == Some(Goal(Th(tr[i], t)))
    decreases i
  {
    if i > 0 {
      BehaviorInv(cfg, tr, ls, i - 1);
      hide Inv, Next, Goal;
      NextGoal(tr[i - 1], ls[i - 1], tr[i], t);
      if !(ls[i - 1].Alloc? && ls[i - 1].t == t) { AskedIsGoal(cfg, tr, ls, i - 1, t); }
    }
  }

  /** Thread t hands the caller an object of the class of its alloc. */
  ghost predicate Delivers(s: State, s': State, t: nat, z: nat, x: Obj) {
    !Live(s, x) && Live(s', x) && s'.tree.sbs[x.sb].szc == z && Th(s', t).pc.Idle?
  }

  ghost predicate Delivered(s: State, s': State, t: nat, z: nat) {
    exists x :: Delivers(s, s', t, z, x)
  }

  /** Only a returning alloc makes an object live. */
  lemma OperateLive(s: State, t: nat, c: Choice, x: Obj)
    requires Inv(s) && Sane(s, t) && !Th(s, t).pc.Idle? && Live(Operate(s, t, c), x) && !Live(s, x)
    ensures Th(s, t).pc.GotObject? && Th(s, t).rest == [] && Th(s, t).obj == Some(x)
    ensures s.tree.sbs[x.sb].szc == Th(s, t).szc
  {
    hide Inv, ObjOff, StackOk;
    OwnKnown(s, x);
    HoldingsKnown(s, t, x, 0);
  }

  lemma ReturnDelivers(s: State, t: nat)
    requires Inv(s) && Th(s, t).pc.GotObject? && Th(s, t).rest == []
    ensures Th(s, t).obj.Some? && Delivers(s, ReturnStep(s, t), t, Th(s, t).szc, Th(s, t).obj.value)
  {
    hide Inv, ObjOff, StackOk;
    LocalKnown(s, t);
    HoldingsKnown(s, t, Obj(0, 0), 0);
  }

  /** Every object that becomes live is handed out by a thread's alloc, and is of the
      class that alloc was asked for. */
  lemma LiveAsAsked(cfg: seq<SzcCfg>, tr: seq<State>, ls: seq<Label>, i: nat, x: Obj)
    requires ValidCfg(cfg) && Behavior(cfg, tr, ls) && i < |ls| && Live(tr[i + 1], x) && !Live(tr[i], x)
    ensures ls[i].Run? && Allocating(tr[i], ls[i].t) && Asked(ls, i, ls[i].t).Some?
    ensures Delivers(tr[i], tr[i + 1], ls[i].t, Asked(ls, i, ls[i].t).value, x)
  {
    BehaviorInv(cfg, tr, ls, i);
    var s, s' := tr[i], tr[i + 1];
    assert Next(s, ls[i], s');
    hide Inv, Behavior;
    LiveByRun(s, ls[i], s', x);
    AskedIsGoal(cfg, tr, ls, i, ls[i].t);
  }

  lemma LiveByRun(s: State, b: Label, s': State, x: Obj)
    requires Inv(s) && Next(s, b, s') && Live(s', x) && !Live(s, x)
    ensures b.Run? && Allocating(s, b.t) && Delivers(s, s', b.t, Goal(Th(s, b.t)), x)
  {
    hide Inv, Operate, Sane;
    match b
    case Run(u, c) =>
      OperateLive(s, u, c, x);
      ReturnOnly(s, u, c);
      ReturnDelivers(s, u);
      LocalKnown(s, u);
    case _ =>
  }

  lemma ReturnOnly(s: State, t: nat, c: Choice)
    requires Sane(s, t) && Th(s, t).pc.GotObject? && Th(s, t).rest == []
    ensures Th(s, t).obj.Some? && Operate(s, t, c) == ReturnStep(s, t)
  {
  }

  /** How an alloc ends: with an object of the class asked for, or, with nothing
      changed, because the pool had no volume left. */
  lemma AllocEnds(cfg: seq<SzcCfg>, tr: seq<State>, ls: seq<Label>, i: nat, t: nat)
    requires ValidCfg(cfg) && Behavior(cfg, tr, ls) && i < |ls| && Allocating(tr[i], t) && Th(tr[i + 1], t).pc.Idle?
    ensures Asked(ls, i, t).Some?
    ensures || Delivered(tr[i], tr[i + 1], t, Asked(ls, i, t).value)
            || (PoolEmpty(tr[i]) && tr[i + 1] == tr[i].(th := tr[i + 1].th))
  {
    BehaviorInv(cfg, tr, ls, i);
    assert Next(tr[i], ls[i], tr[i + 1]);
    hide Inv, Behavior;
    AskedIsGoal(cfg, tr, ls, i, t);
    EndsByRun(tr[i], ls[i], tr[i + 1], t);
  }

  lemma EndsByRun(s: State, b: Label, s': State, t: nat)
    requires Inv(s) && Next(s, b, s') && Allocating(s, t) && Th(s', t).pc.Idle?
    ensures || Delivered(s, s', t, Goal(Th(s, t)))
            || (PoolEmpty(s) && s' == s.(th := s'.th))
  {
    hide Inv, Sane;
    match b
    case Run(u, c) =>
      PcKnown(s, u);
      if u == t { OperateEnds(s, t, c); } else { OthersStay(s, u, c, t); }
    case _ =>
  }

  lemma OperateEnds(s: State, t: nat, c: Choice)
    requires Inv(s) && Sane(s, t) && Allocating(s, t) && Th(Operate(s, t, c), t).pc.Idle?
    ensures || Delivered(s, Operate(s, t, c), t, Goal(Th(s, t)))
            || (Th(s, t).pc.NewSuperblock? && PoolEmpty(s) && Operate(s, t, c) == s.(th := Operate(s, t, c).th))
  {
    hide Inv, StackOk, Delivers, Chain, ObjOff, Lsb;
    LocalKnown(s, t);
    if Th(s, t).pc.GotObject? {
      assert Th(s, t).rest == [];
      ReturnOnly(s, t, c);
      ReturnDelivers(s, t);
      assert Delivers(s, Operate(s, t, c), t, Goal(Th(s, t)), Th(s, t).obj.value);
    }
  }
}
