/** Whole policies: an accepted filter answers every call, within its own length,
    with the policy's verdict. */
module SeccompPolicy {
  import opened Basics
  import opened SeccompSpec
  import opened SeccompCode
  import opened SeccompCompiler
  import opened SeccompCorrect

  predicate WellFormed(entries: seq<Entry>) {
    forall i | 0 <= i < |entries| && entries[i].cond.Some? :: NoBareArg(entries[i].cond.value)
  }

  // ----- the check of one syscall ------------------------------------------------

  lemma CheckGrows(p: Prog, syscall: string, cond: Expr, c: Context)
    requires EmitCheck(p, syscall, cond, c).Ok?
    ensures p.items <= EmitCheck(p, syscall, cond, c).value.items
  {
    hide Emit;
    var p1 := PutLabel(p, "check_" + syscall).value;
    EmitGrows(p1, cond, syscall + "_ALLOW", syscall + "_KILL", syscall, c);
  }

  lemma CheckCorrect(p: Prog, syscall: string, cond: Expr, c: Context, q: Prog, items: seq<Item>, acc: nat, env: Env,
          call: Call)
    requires EmitCheck(p, syscall, cond, c) == Ok(q) && q.items <= items
    ensures Find(items, "check_" + syscall) == |p.items|
    ensures Exec(items, |p.items|, acc, env, call) == Returned(Decides(cond, syscall, c, env, call) == Some(true))
  {
    hide Exec, Find, Emit, Decides;
    var allow, kill := syscall + "_ALLOW", syscall + "_KILL";
    var p1 := PutLabel(p, "check_" + syscall).value;
    var p2 := Emit(p1, cond, allow, kill, syscall, c).value;
    var p3 := Put(PutLabel(p2, kill).value, Ret(false));
    var p4 := Put(PutLabel(p3, allow).value, Ret(true));
    EmitGrows(p1, cond, allow, kill, syscall, c);
    assert p1.items <= p2.items <= p3.items <= p4.items && p4 == q;
    LabelFound(p, "check_" + syscall, items);
    LabelFound(p2, kill, items);
    LabelFound(p3, allow, items);
    StepLabel(items, |p.items|, acc, env, call);
    var after := EmitCorrect(p1, cond, allow, kill, syscall, c, p2, items, acc, env, call);
    assert items[|p2.items|] == Label(kill) && items[|p2.items| + 1] == Ret(false);
    assert items[|p3.items|] == Label(allow) && items[|p3.items| + 1] == Ret(true);
    LabelledRet(items, |p2.items|, after, env, call);
    LabelledRet(items, |p3.items|, after, env, call);
  }

  lemma LabelledRet(items: seq<Item>, i: nat, acc: nat, env: Env, call: Call)
    requires i + 1 < |items| && items[i].Label? && items[i + 1].Ret?
    ensures Exec(items, i, acc, env, call) == Returned(items[i + 1].allow)
  {
  }

  lemma {:induction false} ChecksGrow(p: Prog, entries: seq<Entry>, c: Context)
    requires EmitChecks(p, entries, c).Ok?
    ensures p.items <= EmitChecks(p, entries, c).value.items
    ensures p.items != [] && p.items[|p.items| - 1].Ret? ==>
      var r := EmitChecks(p, entries, c).value.items; r[|r| - 1].Ret?
    decreases |entries|
  {
    hide EmitCheck;
    if entries != [] {
      if entries[0].cond == None {
        ChecksGrow(p, entries[1..], c);
      } else {
        CheckGrows(p, entries[0].syscall, entries[0].cond.value, c);
        CheckEndsInRet(p, entries[0].syscall, entries[0].cond.value, c);
        ChecksGrow(EmitCheck(p, entries[0].syscall, entries[0].cond.value, c).value, entries[1..], c);
      }
    }
  }

  lemma CheckEndsInRet(p: Prog, syscall: string, cond: Expr, c: Context)
    requires EmitCheck(p, syscall, cond, c).Ok?
    ensures var r := EmitCheck(p, syscall, cond, c).value.items; r != [] && r[|r| - 1].Ret?
  {
    hide Emit;
  }

  /** Every conditional entry's check is found ahead and returns its verdict. */
  lemma {:induction false} ChecksCorrect(p: Prog, entries: seq<Entry>, c: Context, q: Prog, items: seq<Item>, k: nat,
          acc: nat, env: Env, call: Call)
    requires EmitChecks(p, entries, c) == Ok(q) && q.items <= items
    requires k < |entries| && entries[k].cond.Some?
    ensures |p.items| <= Find(items, "check_" + entries[k].syscall)
    ensures Exec(items, Find(items, "check_" + entries[k].syscall), acc, env, call)
         == Returned(Decides(entries[k].cond.value, entries[k].syscall, c, env, call) == Some(true))
    decreases |entries|
  {
    hide Exec, Find, EmitCheck, Decides;
    if entries[0].cond == None {
      ChecksCorrect(p, entries[1..], c, q, items, k - 1, acc, env, call);
    } else {
      var p1 := EmitCheck(p, entries[0].syscall, entries[0].cond.value, c).value;
      CheckGrows(p, entries[0].syscall, entries[0].cond.value, c);
      ChecksGrow(p1, entries[1..], c);
      if k == 0 {
        CheckCorrect(p, entries[0].syscall, entries[0].cond.value, c, p1, items, acc, env, call);
      } else {
        ChecksCorrect(p1, entries[1..], c, q, items, k - 1, acc, env, call);
      }
    }
  }

  // ----- the dispatch --------------------------------------------------------------

  /** What an accepted program consists of. */
  lemma CompiledShape(entries: seq<Entry>, c: Context, items: seq<Item>) returns (p: Prog)
    requires Compile(entries, c) == Ok(items)
    ensures EmitChecks(p, entries, c).Ok? && EmitChecks(p, entries, c).value.items == items
    ensures p.items == Prologue(entries) + [Label(KILL), Ret(false), Label(ALLOW), Ret(true)]
    ensures p.items <= items && Resolve(items).Ok? && items[|items| - 1].Ret?
    ensures Find(items, KILL) == |entries| + 3 && Find(items, ALLOW) == |entries| + 5
  {
    hide EmitChecks, Find, Resolve, Prologue;
    var p1 := Prog(Prologue(entries), 0);
    var p2 := Put(PutLabel(p1, KILL).value, Ret(false));
    p := Put(PutLabel(p2, ALLOW).value, Ret(true));
    ChecksGrow(p, entries, c);
    assert p1.items <= p2.items <= p.items;
    LabelFound(p1, KILL, items);
    LabelFound(p2, ALLOW, items);
    PrologueSize(entries);
  }

  lemma PrologueSize(entries: seq<Entry>)
    ensures |Prologue(entries)| == |entries| + 3
    ensures forall j | 0 <= j < |entries| :: Prologue(entries)[j + 3] == Dispatch(entries[j])
  {
    hide Dispatch, Dispatches;
  }

  /** Where the fixed parts of an accepted program lie. */
  lemma CompiledItems(entries: seq<Entry>, c: Context, items: seq<Item>)
    requires Compile(entries, c) == Ok(items)
    ensures |items| > |entries| + 6
    ensures items[0] == Load(Arch) && items[1] == Jump(Jeq, ArchNr, Next, To(KILL)) && items[2] == Load(Nr)
    ensures forall j | 0 <= j < |entries| :: items[j + 3] == Dispatch(entries[j])
    ensures items[|entries| + 3].Label? && items[|entries| + 4] == Ret(false)
    ensures items[|entries| + 5].Label? && items[|entries| + 6] == Ret(true)
    ensures Find(items, KILL) == |entries| + 3 && Find(items, ALLOW) == |entries| + 5
  {
    hide Compile, EmitChecks, Find, Resolve;
    var p := CompiledShape(entries, c, items);
    PrologueSize(entries);
    assert forall j | 0 <= j < |p.items| :: items[j] == p.items[j];
  }

  lemma CheckReached(entries: seq<Entry>, c: Context, items: seq<Item>, j: nat, acc: nat, env: Env, call: Call)
    requires Compile(entries, c) == Ok(items) && j < |entries| && entries[j].cond.Some?
    ensures j + 3 < Find(items, "check_" + entries[j].syscall)
    ensures Exec(items, Find(items, "check_" + entries[j].syscall), acc, env, call)
         == Returned(Decides(entries[j].cond.value, entries[j].syscall, c, env, call) == Some(true))
  {
    hide Exec, Find, Compile, EmitChecks, Prologue, Resolve, Decides;
    var p := CompiledShape(entries, c, items);
    PrologueSize(entries);
    ChecksCorrect(p, entries, c, EmitChecks(p, entries, c).value, items, j, acc, env, call);
  }

  lemma DispatchAt(entries: seq<Entry>, c: Context, items: seq<Item>, j: nat)
    requires Compile(entries, c) == Ok(items) && j < |entries|
    ensures j + 3 < Find(items, ALLOW) < |items| && items[j + 3] == Dispatch(entries[j])
  {
    hide Compile, Find, Dispatch;
    CompiledItems(entries, c, items);
  }

  lemma AllowReturns(entries: seq<Entry>, c: Context, items: seq<Item>, acc: nat, env: Env, call: Call)
    requires Compile(entries, c) == Ok(items)
    ensures Exec(items, Find(items, ALLOW), acc, env, call) == Returned(true)
  {
    hide Compile, Find, Dispatch, Exec;
    CompiledItems(entries, c, items);
    LabelledRet(items, |entries| + 5, acc, env, call);
  }

  /** From the j-th comparison of the syscall number on, the filter returns what the
      remaining entries say. */
  lemma {:induction false} DispatchCorrect(entries: seq<Entry>, c: Context, items: seq<Item>, j: nat, env: Env,
          call: Call)
    requires Compile(entries, c) == Ok(items) && j <= |entries|
    ensures Exec(items, j + 3, call.nr, env, call) == Returned(Admitted(entries[j..], c, env, call))
    decreases |entries| - j
  {
    hide Exec, Find, Compile, EmitChecks, Prologue, Resolve, Decides;
    if j == |entries| {
      CompiledItems(entries, c, items);
      LabelledRet(items, j + 3, call.nr, env, call);
    } else {
      var e := entries[j];
      DispatchAt(entries, c, items, j);
      assert entries[j..][0] == e && entries[j..][1..] == entries[j + 1..];
      if call.nr != env.sys(e.syscall) {
        StepNext(items, j + 3, call.nr, env, call);
        DispatchCorrect(entries, c, items, j + 1, env, call);
      } else if e.cond == None {
        StepJump(items, j + 3, call.nr, ALLOW, env, call);
        AllowReturns(entries, c, items, call.nr, env, call);
      } else {
        CheckReached(entries, c, items, j, call.nr, env, call);
        StepJump(items, j + 3, call.nr, "check_" + e.syscall, env, call);
      }
    }
  }

  lemma StepNext(items: seq<Item>, i: nat, acc: nat, env: Env, call: Call)
    requires i < |items| && items[i].Jump?
    requires Next == if Test(items[i].op, acc, Value(items[i].k, env)) then items[i].jt else items[i].jf
    ensures Exec(items, i, acc, env, call) == Exec(items, i + 1, acc, env, call)
  {
  }

  lemma LabelledCorrect(entries: seq<Entry>, c: Context, items: seq<Item>, acc: nat, env: Env, call: Call)
    requires Compile(entries, c) == Ok(items)
    ensures Exec(items, 0, acc, env, call) == Returned(call.arch == env.archNr && Admitted(entries, c, env, call))
  {
    hide Exec, Find, Compile, EmitChecks, Resolve, Admitted;
    CompiledItems(entries, c, items);
    StepLoad(items, 0, Arch, acc, env, call);
    if call.arch == env.archNr {
      StepNext(items, 1, call.arch, env, call);
      StepLoad(items, 2, Nr, call.arch, env, call);
      DispatchCorrect(entries, c, items, 0, env, call);
      assert entries[0..] == entries;
    } else {
      StepJump(items, 1, call.arch, KILL, env, call);
      LabelledRet(items, |entries| + 3, call.arch, env, call);
    }
  }

  // ----- main results ----------------------------------------------------------------

  /** Every accepted policy: the filter answers every call within instruction_count
      steps, and allows it exactly when the architecture is the native one and the
      call's entry has no condition or one that decides for it. */
  lemma FilterAnswers(entries: seq<Entry>, c: Context, items: seq<Item>, acc: nat, env: Env, call: Call)
    requires Compile(entries, c) == Ok(items)
    ensures Resolve(items).Ok?
    ensures var r := Machine(Resolve(items).value, 0, acc, env, call);
      && r.Done? && r.steps <= InstructionCount(items)
      && r.allow == (call.arch == env.archNr && Admitted(entries, c, env, call))
  {
    hide Exec, Compile, Resolve, Machine, Admitted;
    var p := CompiledShape(entries, c, items);
    AlwaysReturns(items, 0, acc, env, call);
    LabelledCorrect(entries, c, items, acc, env, call);
    ResolvePreserves(items, 0, acc, env, call);
  }

  /** Without bare arguments, deciding for a call is being true of it. */
  lemma {:induction false} AdmittedListed(p: Prog, entries: seq<Entry>, c: Context, env: Env, call: Call)
    requires EmitChecks(p, entries, c).Ok? && WellFormed(entries)
    ensures Admitted(entries, c, env, call) == Listed(entries, c, env, call)
    decreases |entries|
  {
    hide Emit, Decides, Holds, NoBareArg;
    if entries != [] {
      assert WellFormed(entries[1..]);
      var e := entries[0];
      if e.cond == None {
        AdmittedListed(p, entries[1..], c, env, call);
      } else {
        var p1 := PutLabel(p, "check_" + e.syscall).value;
        DecidesTruth(p1, e.cond.value, e.syscall + "_ALLOW", e.syscall + "_KILL", e.syscall, c, env, call);
        AdmittedListed(EmitCheck(p, e.syscall, e.cond.value, c).value, entries[1..], c, env, call);
      }
    }
  }

  /** Every accepted well-formed policy: the filter allows a call exactly when the
      policy does. */
  lemma FilterCorrect(entries: seq<Entry>, c: Context, items: seq<Item>, acc: nat, env: Env, call: Call)
    requires Compile(entries, c) == Ok(items) && WellFormed(entries)
    ensures Resolve(items).Ok?
    ensures var r := Machine(Resolve(items).value, 0, acc, env, call);
      r.Done? && r.steps <= InstructionCount(items) && r.allow == Allowed(entries, c, env, call)
  {
    hide Exec, Compile, Resolve, Machine, Admitted, Listed, EmitChecks, WellFormed;
    FilterAnswers(entries, c, items, acc, env, call);
    var p := CompiledShape(entries, c, items);
    AdmittedListed(p, entries, c, env, call);
  }

  /** Why well-formedness is asked for: a bare (arg N) has no truth value. As a whole
      condition it and its negation both compile, and both deny every call. */
  lemma BareArgDenies(p: Prog, syscall: string, e: Expr, negated: bool, c: Context, items: seq<Item>, acc: nat,
                      env: Env, call: Call)
    requires IsArg(e) && ArgNo(e).Ok?
    requires var check := EmitCheck(p, syscall, if negated then List([Sym("not"), e]) else e, c);
      check.Ok? && check.value.items <= items
    ensures Exec(items, |p.items|, acc, env, call) == Returned(false)
  {
    hide Exec, Find, EmitCheck;
    var cond := if negated then List([Sym("not"), e]) else e;
    assert Decides(cond, syscall, c, env, call) == None;
    CheckCorrect(p, syscall, cond, c, EmitCheck(p, syscall, cond, c).value, items, acc, env, call);
  }

  /** Deeper inside a condition it lets calls through: where an or that ends in a bare
      argument is followed by another operand of an and, the filter decides by that
      operand alone and the or's own tests have no effect. */
  lemma BareArgDropsTest(test: Expr, bare: Expr, rest: Expr, syscall: string, c: Context, env: Env, call: Call)
    requires IsArg(bare)
    ensures var either := List([Sym("or"), test, bare]);
      Decides(List([Sym("and"), either, rest]), syscall, c, env, call) == Decides(rest, syscall, c, env, call)
  {
    hide CmpHolds;
    var either := List([Sym("or"), test, bare]);
    var both := List([Sym("and"), either, rest]);
    assert either.es[1..] == [test, bare] && [test, bare][1..] == [bare];
    assert both.es[1..] == [either, rest] && [either, rest][1..] == [rest];
    assert Decides(bare, syscall, c, env, call) == None;
    assert Decides(either, syscall, c, env, call) == DecidesList("or", [test, bare], syscall, c, env, call);
    assert DecidesList("or", [bare], syscall, c, env, call) == None;
    assert Decides(either, syscall, c, env, call) != Some(false);
    assert DecidesList("and", [either, rest], syscall, c, env, call)
        == DecidesList("and", [rest], syscall, c, env, call);
    assert DecidesList("and", [rest], syscall, c, env, call) == Decides(rest, syscall, c, env, call);
  }
}
