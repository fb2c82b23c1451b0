/** Compiled filters decide exactly what the policy means. */
module SeccompCorrect {
  import opened Basics
  import opened SeccompSpec
  import opened SeccompCode
  import opened SeccompCompiler

  // ----- single steps of a labelled program -------------------------------------

  lemma StepLabel(items: seq<Item>, i: nat, acc: nat, env: Env, call: Call)
    requires i < |items| && items[i].Label?
    ensures Exec(items, i, acc, env, call) == Exec(items, i + 1, acc, env, call)
  {
  }

  lemma StepLoad(items: seq<Item>, i: nat, src: Source, acc: nat, env: Env, call: Call)
    requires i < |items| && items[i] == Load(src)
    ensures Exec(items, i, acc, env, call) == Exec(items, i + 1, Fetch(src, call), env, call)
  {
  }

  lemma StepJump(items: seq<Item>, i: nat, acc: nat, name: string, env: Env, call: Call)
    requires i < |items| && items[i].Jump?
    requires To(name) == if Test(items[i].op, acc, Value(items[i].k, env)) then items[i].jt else items[i].jf
    requires i < Find(items, name)
    ensures Exec(items, i, acc, env, call) == Exec(items, Find(items, name), acc, env, call)
  {
  }

  /** A label accepted by PutLabel is found where it was put, however the program
      grows afterwards. */
  lemma LabelFound(p: Prog, name: string, items: seq<Item>)
    requires PutLabel(p, name).Ok? && PutLabel(p, name).value.items <= items
    ensures Find(items, name) == |p.items|
  {
    assert items[|p.items|] == Label(name);
    assert forall j | 0 <= j < |p.items| :: items[j] == p.items[j];
  }

  // ----- comparisons ---------------------------------------------------------------

  lemma LowStep(items: seq<Item>, i: nat, op: string, k: Const, lt: string, lf: string, acc: nat, env: Env, call: Call)
    requires i < |items| && items[i] == LowJump(op, k, lt, lf) && IsCmp(op)
    requires i < Find(items, lt) && i < Find(items, lf)
    ensures Exec(items, i, acc, env, call)
         == Exec(items, Find(items, if Compare(op, acc, Value(k, env)) then lt else lf), acc, env, call)
  {
    hide Exec, Find, Value;
    StepJump(items, i, acc, if Compare(op, acc, Value(k, env)) then lt else lf, env, call);
  }

  lemma WordValues(e: Expr, c: Context, env: Env)
    requires ImmWords(e, c).Ok?
    ensures Value(ImmWords(e, c).value.lo, env) == Immediate(e, c, env) % 0x1_0000_0000
    ensures Value(ImmWords(e, c).value.hi, env) == Immediate(e, c, env) / 0x1_0000_0000
  {
    if !e.Int? {
      Wrapped(env.constant(Text(e)));
    }
  }

  lemma Wrapped(v: nat)
    ensures v % 0x1_0000_0000_0000_0000 % 0x1_0000_0000 == v % 0x1_0000_0000
    ensures v % 0x1_0000_0000_0000_0000 / 0x1_0000_0000 == v / 0x1_0000_0000 % 0x1_0000_0000
  {
  }

  /** Comparing two words at a time is comparing the whole value. */
  lemma SplitCompare(op: string, a: nat, b: nat)
    requires IsCmp(op)
    ensures a / 0x1_0000_0000 == b / 0x1_0000_0000 ==>
              (Compare(op, a, b) <==> Compare(op, a % 0x1_0000_0000, b % 0x1_0000_0000))
    ensures a / 0x1_0000_0000 > b / 0x1_0000_0000 ==> (Compare(op, a, b) <==> (op == ">" || op == ">="))
    ensures a / 0x1_0000_0000 < b / 0x1_0000_0000 ==> (Compare(op, a, b) <==> (op == "<" || op == "<="))
  {
  }

  lemma SplitEq(a: nat, b: nat)
    ensures a == b <==> a / 0x1_0000_0000 == b / 0x1_0000_0000 && a % 0x1_0000_0000 == b % 0x1_0000_0000
    ensures Compare("eq", a % 0x1_0000_0000, b % 0x1_0000_0000) <==> a % 0x1_0000_0000 == b % 0x1_0000_0000
  {
  }

  lemma EqWide(p: Prog, n: nat, w: Words, lt: string, lf: string, q: Prog, items: seq<Item>, acc: nat, b: nat,
          env: Env, call: Call)
    returns (after: nat)
    requires EmitEqWide(p, n, w, lt, lf) == Ok(q) && q.items <= items
    requires |q.items| <= Find(items, lt) && |q.items| <= Find(items, lf)
    requires Value(w.lo, env) == b % 0x1_0000_0000 && Value(w.hi, env) == b / 0x1_0000_0000
    ensures Exec(items, |p.items|, acc, env, call)
         == Exec(items, Find(items, if Arg(call, n) == b then lt else lf), after, env, call)
  {
    hide Exec, Find, Value, Arg, LabelName, Compare;
    var hiOk := LabelName("arg_hi_eq", p.labelId + 1);
    var p1 := Put(Put(Fresh(p), Load(ArgHi(n))), Jump(Jeq, w.hi, To(hiOk), To(lf)));
    var i := |p.items|;
    assert items[i] == Load(ArgHi(n)) && items[i + 1] == p1.items[i + 1] && items[i + 2] == Label(hiOk);
    assert items[i + 3] == Load(ArgLo(n)) && items[i + 4] == LowJump("eq", w.lo, lt, lf);
    LabelFound(p1, hiOk, items);
    StepLoad(items, i, ArgHi(n), acc, env, call);
    var hi := Fetch(ArgHi(n), call);
    SplitEq(Arg(call, n), b);
    if hi == Value(w.hi, env) {
      StepJump(items, i + 1, hi, hiOk, env, call);
      StepLabel(items, i + 2, hi, env, call);
      StepLoad(items, i + 3, ArgLo(n), hi, env, call);
      LowStep(items, i + 4, "eq", w.lo, lt, lf, Fetch(ArgLo(n), call), env, call);
      after := Fetch(ArgLo(n), call);
    } else {
      StepJump(items, i + 1, hi, lf, env, call);
      after := hi;
    }
  }

  function OrderCode(p: Prog, op: string, n: nat, w: Words, lt: string, lf: string): seq<Item> {
    var mid, eq := LabelName("arg_cmp", p.labelId + 1), LabelName("arg_cmp_eq", p.labelId + 2);
    var below := op == "<" || op == "<=";
    [Load(ArgHi(n)), Jump(Jgt, w.hi, To(if below then lf else lt), To(mid)), Label(mid),
     Jump(Jeq, w.hi, To(eq), To(if below then lt else lf)), Label(eq), Load(ArgLo(n)), LowJump(op, w.lo, lt, lf)]
  }

  lemma OrderEmits(p: Prog, op: string, n: nat, w: Words, lt: string, lf: string, q: Prog)
    requires EmitOrderWide(p, op, n, w, lt, lf) == Ok(q)
    ensures q.items == p.items + OrderCode(p, op, n, w, lt, lf)
  {
    hide LabelName, LowJump;
  }

  lemma OrderFresh(p: Prog, op: string, n: nat, w: Words, lt: string, lf: string)
    requires EmitOrderWide(p, op, n, w, lt, lf).Ok?
    ensures var mid, eq := LabelName("arg_cmp", p.labelId + 1), LabelName("arg_cmp_eq", p.labelId + 2);
      mid != eq && Label(mid) !in p.items && Label(eq) !in p.items
  {
    hide LabelName, LowJump;
  }

  lemma LabelAt(items: seq<Item>, k: nat, name: string)
    requires k < |items| && items[k] == Label(name)
    requires forall j | 0 <= j < k :: items[j] != Label(name)
    ensures Find(items, name) == k
  {
  }

  lemma OrderShape(p: Prog, op: string, n: nat, w: Words, lt: string, lf: string, q: Prog, items: seq<Item>)
    requires EmitOrderWide(p, op, n, w, lt, lf) == Ok(q) && q.items <= items
    ensures |q.items| == |p.items| + 7 <= |items|
    ensures var i := |p.items|;
      items[i] == Load(ArgHi(n)) && items[i + 5] == Load(ArgLo(n)) && items[i + 6] == LowJump(op, w.lo, lt, lf)
    ensures var i, mid := |p.items|, LabelName("arg_cmp", p.labelId + 1);
      && items[i + 1] == Jump(Jgt, w.hi, To(if op == "<" || op == "<=" then lf else lt), To(mid))
      && Find(items, mid) == i + 2 && items[i + 2] == Label(mid)
    ensures var i, eq := |p.items|, LabelName("arg_cmp_eq", p.labelId + 2);
      && items[i + 3] == Jump(Jeq, w.hi, To(eq), To(if op == "<" || op == "<=" then lt else lf))
      && Find(items, eq) == i + 4 && items[i + 4] == Label(eq)
  {
    hide Find, LabelName, LowJump;
    hide EmitOrderWide;
    OrderEmits(p, op, n, w, lt, lf, q);
    OrderFresh(p, op, n, w, lt, lf);
    var i := |p.items|;
    assert forall j | 0 <= j < i :: items[j] == p.items[j];
    assert forall j | 0 <= j < 7 :: items[i + j] == OrderCode(p, op, n, w, lt, lf)[j];
    LabelAt(items, i + 2, LabelName("arg_cmp", p.labelId + 1));
    LabelAt(items, i + 4, LabelName("arg_cmp_eq", p.labelId + 2));
  }

  lemma OrderWide(p: Prog, op: string, n: nat, w: Words, lt: string, lf: string, q: Prog, items: seq<Item>, acc: nat,
          b: nat, env: Env, call: Call)
    returns (after: nat)
    requires EmitOrderWide(p, op, n, w, lt, lf) == Ok(q) && q.items <= items && IsCmp(op) && op != "eq"
    requires |q.items| <= Find(items, lt) && |q.items| <= Find(items, lf)
    requires Value(w.lo, env) == b % 0x1_0000_0000 && Value(w.hi, env) == b / 0x1_0000_0000
    ensures Exec(items, |p.items|, acc, env, call)
         == Exec(items, Find(items, if Compare(op, Arg(call, n), b) then lt else lf), after, env, call)
  {
    hide Exec, Find, Value, Arg, EmitOrderWide, LabelName;
    OrderShape(p, op, n, w, lt, lf, q, items);
    var mid, eq := LabelName("arg_cmp", p.labelId + 1), LabelName("arg_cmp_eq", p.labelId + 2);
    var below := op == "<" || op == "<=";
    var i := |p.items|;
    StepLoad(items, i, ArgHi(n), acc, env, call);
    var hi := Fetch(ArgHi(n), call);
    after := hi;
    SplitCompare(op, Arg(call, n), b);
    if hi > Value(w.hi, env) {
      StepJump(items, i + 1, hi, if below then lf else lt, env, call);
    } else {
      StepJump(items, i + 1, hi, mid, env, call);
      StepLabel(items, i + 2, hi, env, call);
      if hi < Value(w.hi, env) {
        StepJump(items, i + 3, hi, if below then lt else lf, env, call);
      } else {
        StepJump(items, i + 3, hi, eq, env, call);
        StepLabel(items, i + 4, hi, env, call);
        StepLoad(items, i + 5, ArgLo(n), hi, env, call);
        LowStep(items, i + 6, op, w.lo, lt, lf, Fetch(ArgLo(n), call), env, call);
        after := Fetch(ArgLo(n), call);
      }
    }
  }

  predicate WidthCompare(op: string, a: nat, b: nat, narrow: bool) {
    if narrow then Compare(op, a % 0x1_0000_0000, b % 0x1_0000_0000) else Compare(op, a, b)
  }

  /** A comparison's code jumps to lt when it holds at the argument's width and
      to lf otherwise. */
  lemma CmpCorrect(p: Prog, op: string, n: nat, imm: Expr, lt: string, lf: string, syscall: string, c: Context,
                   q: Prog, items: seq<Item>, acc: nat, env: Env, call: Call) returns (after: nat)
    requires EmitCmp(p, op, n, imm, lt, lf, syscall, c) == Ok(q) && q.items <= items && IsCmp(op)
    requires |q.items| <= Find(items, lt) && |q.items| <= Find(items, lf)
    ensures IsNarrow(c, syscall, n).Ok?
    ensures Exec(items, |p.items|, acc, env, call)
         == (var holds := WidthCompare(op, Arg(call, n), Immediate(imm, c, env), IsNarrow(c, syscall, n).value);
             Exec(items, Find(items, if holds then lt else lf), after, env, call))
  {
    hide Exec, Find, Value, Arg, Immediate, EmitEqWide, EmitOrderWide, Compare;
    var w := ImmWords(imm, c).value;
    WordValues(imm, c, env);
    if IsNarrow(c, syscall, n).value {
      var i := |p.items|;
      assert items[i] == Load(ArgLo(n)) && items[i + 1] == LowJump(op, w.lo, lt, lf);
      StepLoad(items, i, ArgLo(n), acc, env, call);
      after := Fetch(ArgLo(n), call);
      LowStep(items, i + 1, op, w.lo, lt, lf, after, env, call);
    } else if op == "eq" {
      after := EqWide(p, n, w, lt, lf, q, items, acc, Immediate(imm, c, env), env, call);
      CompareEq(Arg(call, n), Immediate(imm, c, env));
    } else {
      after := OrderWide(p, op, n, w, lt, lf, q, items, acc, Immediate(imm, c, env), env, call);
    }
  }

  lemma CompareEq(a: nat, b: nat)
    ensures Compare("eq", a, b) <==> a == b
  {
  }

  lemma MirrorCompare(op: string, a: nat, b: nat)
    requires IsCmp(op)
    ensures IsCmp(Mirror(op)) && (Compare(Mirror(op), a, b) <==> Compare(op, b, a))
  {
  }

  lemma ComparisonCorrect(p: Prog, op: string, lhs: Expr, rhs: Expr, lt: string, lf: string,
                          syscall: string, c: Context, q: Prog, items: seq<Item>, acc: nat,
                          env: Env, call: Call) returns (after: nat)
    requires EmitComparison(p, op, lhs, rhs, lt, lf, syscall, c) == Ok(q) && q.items <= items && IsCmp(op)
    requires |q.items| <= Find(items, lt) && |q.items| <= Find(items, lf)
    ensures Exec(items, |p.items|, acc, env, call)
         == Exec(items, Find(items, if CmpHolds(op, lhs, rhs, syscall, c, env, call) then lt else lf), after, env, call)
  {
    hide Exec, Find, EmitCmp, Compare, Immediate, Arg, IsCmp, IsNarrow, Mirror;
    if IsArg(lhs) {
      after := CmpCorrect(p, op, ArgNo(lhs).value, rhs, lt, lf, syscall, c, q, items, acc, env, call);
    } else {
      var n := ArgNo(rhs).value;
      MirrorCompare(op, Arg(call, n), Immediate(lhs, c, env));
      MirrorCompare(op, Arg(call, n) % 0x1_0000_0000, Immediate(lhs, c, env) % 0x1_0000_0000);
      after := CmpCorrect(p, Mirror(op), n, lhs, lt, lf, syscall, c, q, items, acc, env, call);
    }
  }

  // ----- conditions -----------------------------------------------------------------

  lemma CmpGrows(p: Prog, op: string, n: nat, imm: Expr, lt: string, lf: string, syscall: string, c: Context)
    ensures var r := EmitCmp(p, op, n, imm, lt, lf, syscall, c); r.Ok? ==> p.items <= r.value.items
  {
    hide LabelName, LowJump;
  }

  lemma {:induction false} EmitGrows(p: Prog, e: Expr, lt: string, lf: string, syscall: string, c: Context)
    requires Emit(p, e, lt, lf, syscall, c).Ok?
    ensures p.items <= Emit(p, e, lt, lf, syscall, c).value.items
    decreases e, 1
  {
    hide EmitCmp, LabelName;
    var op := Text(e.es[0]);
    if op == "not" {
      EmitGrows(p, e.es[1], lf, lt, syscall, c);
    } else if op == "and" || op == "or" {
      EmitListGrows(p, op, e.es[1..], lt, lf, syscall, c);
    } else if IsCmp(op) {
      if IsArg(e.es[1]) {
        CmpGrows(p, op, ArgNo(e.es[1]).value, e.es[2], lt, lf, syscall, c);
      } else {
        CmpGrows(p, Mirror(op), ArgNo(e.es[2]).value, e.es[1], lt, lf, syscall, c);
      }
    }
  }

  lemma {:induction false} EmitListGrows(p: Prog, op: string, es: seq<Expr>, lt: string, lf: string, syscall: string,
          c: Context)
    requires es != [] && EmitList(p, op, es, lt, lf, syscall, c).Ok?
    ensures p.items <= EmitList(p, op, es, lt, lf, syscall, c).value.items
    decreases es, 0
  {
    hide LabelName;
    if |es| == 1 {
      EmitGrows(p, es[0], lt, lf, syscall, c);
    } else {
      var next := LabelName(op, p.labelId + 1);
      var tt, ff := if op == "and" then next else lt, if op == "and" then lf else next;
      EmitGrows(Fresh(p), es[0], tt, ff, syscall, c);
      var p2 := PutLabel(Emit(Fresh(p), es[0], tt, ff, syscall, c).value, next).value;
      EmitListGrows(p2, op, es[1..], lt, lf, syscall, c);
    }
  }

  /** Where the code of a condition leads: to lt or lf if the condition decides, and
      otherwise to whatever follows it. */
  function Goal(d: Option<bool>, lt: string, lf: string, items: seq<Item>, end: nat): nat {
    match d
    case Some(b) => Find(items, if b then lt else lf)
    case None => end
  }

  /** The code of a condition, wherever it ends up in the program and whatever the
      accumulator holds, leads where the condition decides. */
  lemma {:induction false} EmitCorrect(p: Prog, e: Expr, lt: string, lf: string, syscall: string, c: Context,
                                       q: Prog, items: seq<Item>, acc: nat, env: Env, call: Call) returns (after: nat)
    requires Emit(p, e, lt, lf, syscall, c) == Ok(q) && q.items <= items
    requires |q.items| <= Find(items, lt) && |q.items| <= Find(items, lf)
    ensures Exec(items, |p.items|, acc, env, call)
         == Exec(items, Goal(Decides(e, syscall, c, env, call), lt, lf, items, |q.items|), after, env, call)
    decreases e, 1
  {
    hide Exec, Find, EmitComparison, CmpHolds, DecidesList, EmitList;
    var op := Text(e.es[0]);
    if op == "not" {
      after := EmitCorrect(p, e.es[1], lf, lt, syscall, c, q, items, acc, env, call);
    } else if op == "and" || op == "or" {
      after := EmitListCorrect(p, op, e.es[1..], lt, lf, syscall, c, q, items, acc, env, call);
    } else if op == "arg" {
      assert items[|p.items|] == q.items[|p.items|];
      after := Fetch(ArgLo(ArgNo(e).value), call);
      StepLoad(items, |p.items|, ArgLo(ArgNo(e).value), acc, env, call);
    } else {
      after := ComparisonCorrect(p, op, e.es[1], e.es[2], lt, lf, syscall, c, q, items, acc, env, call);
    }
  }

  lemma {:induction false} EmitListCorrect(p: Prog, op: string, es: seq<Expr>, lt: string, lf: string,
                                           syscall: string, c: Context, q: Prog, items: seq<Item>, acc: nat,
                                           env: Env, call: Call) returns (after: nat)
    requires es != [] && EmitList(p, op, es, lt, lf, syscall, c) == Ok(q) && q.items <= items
    requires |q.items| <= Find(items, lt) && |q.items| <= Find(items, lf)
    ensures Exec(items, |p.items|, acc, env, call)
         == Exec(items, Goal(DecidesList(op, es, syscall, c, env, call), lt, lf, items, |q.items|), after, env, call)
    decreases es, 0
  {
    hide Exec, Find, Emit, LabelName, Decides;
    if |es| == 1 {
      after := EmitCorrect(p, es[0], lt, lf, syscall, c, q, items, acc, env, call);
    } else {
      var next := LabelName(op, p.labelId + 1);
      var tt, ff := if op == "and" then next else lt, if op == "and" then lf else next;
      var p1 := Emit(Fresh(p), es[0], tt, ff, syscall, c).value;
      var p2 := PutLabel(p1, next).value;
      EmitListGrows(p2, op, es[1..], lt, lf, syscall, c);
      assert p1.items <= p2.items <= q.items <= items;
      LabelFound(p1, next, items);
      after := EmitCorrect(Fresh(p), es[0], tt, ff, syscall, c, p1, items, acc, env, call);
      if Decides(es[0], syscall, c, env, call) != Some(op != "and") {
        assert items[|p1.items|] == Label(next);
        StepLabel(items, |p1.items|, after, env, call);
        after := EmitListCorrect(p2, op, es[1..], lt, lf, syscall, c, q, items, after, env, call);
      }
    }
  }

  // ----- conditions without a bare argument -------------------------------------------

  predicate ListHolds(op: string, es: seq<Expr>, syscall: string, c: Context, env: Env, call: Call) {
    if op == "and" then HoldsAll(es, syscall, c, env, call) else HoldsAny(es, syscall, c, env, call)
  }

  lemma ListHoldsStep(op: string, es: seq<Expr>, syscall: string, c: Context, env: Env, call: Call)
    requires es != []
    ensures ListHolds(op, es, syscall, c, env, call) ==
      if Holds(es[0], syscall, c, env, call) == (op == "and") && |es| > 1
      then ListHolds(op, es[1..], syscall, c, env, call)
      else Holds(es[0], syscall, c, env, call)
  {
    hide Holds;
    assert forall i | 1 <= i < |es| :: es[i] == es[1..][i - 1];
  }

  /** An accepted condition without a bare argument decides its own truth. */
  lemma {:induction false} DecidesTruth(p: Prog, e: Expr, lt: string, lf: string, syscall: string, c: Context,
                                        env: Env, call: Call)
    requires Emit(p, e, lt, lf, syscall, c).Ok? && NoBareArg(e)
    ensures Decides(e, syscall, c, env, call) == Some(Holds(e, syscall, c, env, call))
    decreases e, 1
  {
    hide EmitComparison, CmpHolds, HoldsAll, HoldsAny, EmitList, DecidesList;
    var op := Text(e.es[0]);
    if op == "not" {
      DecidesTruth(p, e.es[1], lf, lt, syscall, c, env, call);
    } else if op == "and" || op == "or" {
      DecidesTruthList(p, op, e.es[1..], lt, lf, syscall, c, env, call);
    }
  }

  lemma {:induction false} DecidesTruthList(p: Prog, op: string, es: seq<Expr>, lt: string, lf: string,
                                            syscall: string, c: Context, env: Env, call: Call)
    requires es != [] && EmitList(p, op, es, lt, lf, syscall, c).Ok?
    requires forall i | 0 <= i < |es| :: NoBareArg(es[i])
    ensures DecidesList(op, es, syscall, c, env, call) == Some(ListHolds(op, es, syscall, c, env, call))
    decreases es, 0
  {
    hide Emit, ListHolds, LabelName, NoBareArg, Holds, Decides;
    ListHoldsStep(op, es, syscall, c, env, call);
    if |es| == 1 {
      DecidesTruth(p, es[0], lt, lf, syscall, c, env, call);
    } else {
      var next := LabelName(op, p.labelId + 1);
      var tt, ff := if op == "and" then next else lt, if op == "and" then lf else next;
      DecidesTruth(Fresh(p), es[0], tt, ff, syscall, c, env, call);
      var p2 := PutLabel(Emit(Fresh(p), es[0], tt, ff, syscall, c).value, next).value;
      DecidesTruthList(p2, op, es[1..], lt, lf, syscall, c, env, call);
    }
  }
}
