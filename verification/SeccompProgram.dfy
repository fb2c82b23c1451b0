/** The compiler in the form it is written in: a program object that grows in
    place, emitters that append to it, and a resolver that walks over it. */
module SeccompProgram {
  import opened Basics
  import opened SeccompSpec
  import opened SeccompCode
  import opened SeccompCompiler

  /** The outcome of an operation that appends to a program or raises. */
  ghost predicate Did(before: Result<Prog>, ok: bool, after: Prog) {
    ok == before.Ok? && (ok ==> after == before.value)
  }

  class Program {
    var items: seq<Item>
    var labelId: nat

    constructor ()
      ensures State() == Prog([], 0)
    {
      items, labelId := [], 0;
    }

    ghost function State(): Prog
      reads this
    {
      Prog(items, labelId)
    }

    method NewLabel(prefix: string) returns (name: string)
      modifies this
      ensures State() == Fresh(old(State())) && name == LabelName(prefix, old(labelId) + 1)
    {
      labelId := labelId + 1;
      name := LabelName(prefix, labelId);
    }

    method AddLabel(name: string) returns (ok: bool)
      modifies this
      ensures Did(PutLabel(old(State()), name), ok, State())
    {
      ok := Label(name) !in items;
      if ok { items := items + [Label(name)]; }
    }

    method Add(item: Item)
      modifies this
      ensures State() == Put(old(State()), item)
    {
      items := items + [item];
    }

    method EmitArgEq(n: nat, imm: Expr, lt: string, lf: string, syscall: string, c: Context) returns (ok: bool)
      modifies this
      ensures Did(EmitCmp(old(State()), "eq", n, imm, lt, lf, syscall, c), ok, State())
    {
      var w := ImmWords(imm, c);
      var narrow := IsNarrow(c, syscall, n);
      if w.Err? || narrow.Err? { return false; }
      if narrow.value {
        Add(Load(ArgLo(n)));
        Add(Jump(Jeq, w.value.lo, To(lt), To(lf)));
        return true;
      }
      var hiOk := NewLabel("arg_hi_eq");
      Add(Load(ArgHi(n)));
      Add(Jump(Jeq, w.value.hi, To(hiOk), To(lf)));
      ok := AddLabel(hiOk);
      if !ok { return; }
      Add(Load(ArgLo(n)));
      Add(Jump(Jeq, w.value.lo, To(lt), To(lf)));
    }

    method EmitArgCmp(op: string, n: nat, imm: Expr, lt: string, lf: string, syscall: string,
            c: Context) returns (ok: bool)
      requires IsCmp(op)
      modifies this
      ensures Did(EmitCmp(old(State()), op, n, imm, lt, lf, syscall, c), ok, State())
    {
      hide EmitOrderWide, EmitEqWide, LowJump, ImmWords, IsNarrow;
      if op == "eq" {
        ok := EmitArgEq(n, imm, lt, lf, syscall, c);
        return;
      }
      var w := ImmWords(imm, c);
      var narrow := IsNarrow(c, syscall, n);
      if w.Err? || narrow.Err? { return false; }
      if narrow.value {
        Add(Load(ArgLo(n)));
        Add(LowJump(op, w.value.lo, lt, lf));
        return true;
      }
      ok := EmitOrder(op, n, w.value, lt, lf);
    }

    /** The 64-bit order comparisons: high words first, low words when those are equal. */
    method EmitOrder(op: string, n: nat, w: Words, lt: string, lf: string) returns (ok: bool)
      modifies this
      ensures Did(EmitOrderWide(old(State()), op, n, w, lt, lf), ok, State())
    {
      hide LabelName, LowJump;
      var mid := NewLabel("arg_cmp");
      var eq := NewLabel("arg_cmp_eq");
      Add(Load(ArgHi(n)));
      var below := op == "<" || op == "<=";
      Add(Jump(Jgt, w.hi, To(if below then lf else lt), To(mid)));
      ok := AddLabel(mid);
      if !ok { return; }
      Add(Jump(Jeq, w.hi, To(eq), To(if below then lt else lf)));
      ok := AddLabel(eq);
      if !ok { return; }
      Add(Load(ArgLo(n)));
      Add(LowJump(op, w.lo, lt, lf));
    }

    method EmitExpr(e: Expr, lt: string, lf: string, syscall: string, c: Context) returns (ok: bool)
      modifies this
      ensures Did(Emit(old(State()), e, lt, lf, syscall, c), ok, State())
      decreases e
    {
      hide EmitCmp, EmitList;
      if !e.List? || e.es == [] { return false; }
      var op := Text(e.es[0]);
      if op == "not" {
        if |e.es| != 2 { return false; }
        ok := EmitExpr(e.es[1], lf, lt, syscall, c);
      } else if op == "and" || op == "or" {
        if |e.es| < 2 { return false; }
        ok := EmitOperands(e, op, lt, lf, syscall, c);
      } else if IsCmp(op) {
        if |e.es| != 3 { return false; }
        var lhs, rhs := e.es[1], e.es[2];
        if IsArg(lhs) && !IsArg(rhs) && ArgNo(lhs).Ok? {
          ok := EmitArgCmp(op, ArgNo(lhs).value, rhs, lt, lf, syscall, c);
        } else if IsArg(rhs) && !IsArg(lhs) && ArgNo(rhs).Ok? {
          ok := EmitArgCmp(Mirror(op), ArgNo(rhs).value, lhs, lt, lf, syscall, c);
        } else {
          ok := false;
        }
      } else if op == "arg" && IsArg(e) && ArgNo(e).Ok? {
        Add(Load(ArgLo(ArgNo(e).value)));
        ok := true;
      } else {
        ok := false;
      }
    }

    /** The loop over the operands of an and/or. */
    method EmitOperands(e: Expr, op: string, lt: string, lf: string, syscall: string, c: Context) returns (ok: bool)
      requires e.List? && |e.es| >= 2
      modifies this
      ensures Did(EmitList(old(State()), op, e.es[1..], lt, lf, syscall, c), ok, State())
      decreases e, 0
    {
      hide Emit, EmitList, LabelName;
      var idx := 1;
      while idx < |e.es| - 1
        invariant 1 <= idx < |e.es|
        invariant EmitList(State(), op, e.es[idx..], lt, lf, syscall, c)
            == EmitList(old(State()), op, e.es[1..], lt, lf, syscall, c)
      {
        OperandNext(State(), op, e.es, idx, lt, lf, syscall, c);
        var next := NewLabel(op);
        ok := EmitExpr(e.es[idx], if op == "and" then next else lt, if op == "and" then lf else next, syscall, c);
        if !ok { return; }
        ok := AddLabel(next);
        if !ok { return; }
        idx := idx + 1;
      }
      OperandLast(State(), op, e.es, idx, lt, lf, syscall, c);
      ok := EmitExpr(e.es[idx], lt, lf, syscall, c);
    }

    /** First pass of the resolver: the instruction index of every label. */
    method CollectLabels() returns (ok: bool, labels: map<string, nat>)
      ensures ok <==> forall i, j | 0 <= i < j < |items| && items[i].Label? && items[j].Label? ::
          items[i].name != items[j].name
      ensures ok ==> Collected(items, |items|, labels)
    {
      labels := map[];
      var pc, i := 0, 0;
      while i < |items|
        invariant 0 <= i <= |items| && pc == Pc(items, i) && Collected(items, i, labels)
        invariant forall a, b | 0 <= a < b < i && items[a].Label? && items[b].Label? :: items[a].name != items[b].name
      {
        if items[i].Label? {
          if items[i].name in labels {
            assert items[Find(items, items[i].name)].Label?;
            return false, labels;
          }
          FoundFirst(items, i, labels);
          labels := labels[items[i].name := pc];
        } else {
          pc := pc + 1;
        }
        i := i + 1;
      }
      return true, labels;
    }

    /** Second pass: no two labels at one instruction. */
    method LabelsShareNoLine(labels: map<string, nat>) returns (ok: bool)
      ensures ok <==> forall a, b | a in labels && b in labels && a != b :: labels[a] != labels[b]
    {
      var rest := labels.Keys;
      var lines: map<nat, string> := map[];
      while rest != {}
        invariant rest <= labels.Keys
        invariant forall n | n in labels && n !in rest :: labels[n] in lines && lines[labels[n]] == n
        invariant forall k | k in lines :: lines[k] in labels && lines[k] !in rest && labels[lines[k]] == k
        decreases |rest|
      {
        var name :| name in rest;
        if labels[name] in lines { return false; }
        lines := lines[labels[name] := name];
        rest := rest - {name};
      }
      return true;
    }

    /** Third pass: the instructions with their offsets. */
    method Render() returns (r: Result<seq<Instr>>)
      ensures r == Resolve(items)
    {
      var ok, labels := CollectLabels();
      if !ok { return Err; }
      ok := LabelsShareNoLine(labels);
      LabelLines(items, labels);
      if !ok { return Err; }
      var code: seq<Instr> := [];
      var pc, i := 0, 0;
      while i < |items|
        invariant 0 <= i <= |items| && pc == Pc(items, i) && EncodeAll(items, i) == Ok(code)
      {
        match items[i] {
          case Label(_) =>
          case Load(src) => code, pc := code + [ILoad(src)], pc + 1;
          case Ret(allow) => code, pc := code + [IRet(allow)], pc + 1;
          case Jump(op, k, jt, jf) =>
            var t := RenderTarget(i, jt, pc, labels);
            var f := RenderTarget(i, jf, pc, labels);
            if t.Err? || f.Err? {
              assert Encode(items, i).Err?;
              EncodeFails(items, i, |items|);
              return Err;
            }
            code, pc := code + [IJump(op, k, t.value, f.value)], pc + 1;
        }
        i := i + 1;
      }
      return Ok(code);
    }

    method RenderTarget(ghost i: nat, t: Target, pc: nat, labels: map<string, nat>) returns (r: Result<nat>)
      requires i < |items| && pc == Pc(items, i) && Collected(items, |items|, labels)
      ensures r == Offset(items, i, t)
    {
      match t
      case Next => return Ok(0);
      case To(name) =>
        if name !in labels { return Err; }
        var off := labels[name] - pc - 1;
        return if 0 <= off <= 255 then Ok(off) else Err;
    }
  }

  /** labels holds exactly the labels of the first n items, at their indices. */
  /** The code of an operand that is not the last, and of the last one. */
  lemma OperandNext(p: Prog, op: string, es: seq<Expr>, i: nat, lt: string, lf: string, syscall: string, c: Context)
    requires i + 1 < |es|
    ensures var next := LabelName(op, p.labelId + 1);
      var code := Emit(Fresh(p), es[i], if op == "and" then next else lt, if op == "and" then lf else next, syscall, c);
      EmitList(p, op, es[i..], lt, lf, syscall, c) ==
        if code.Err? || PutLabel(code.value, next).Err? then Err
        else EmitList(PutLabel(code.value, next).value, op, es[i + 1..], lt, lf, syscall, c)
  {
    hide Emit, LabelName, PutLabel;
    assert es[i..][0] == es[i] && es[i..][1..] == es[i + 1..];
  }

  lemma OperandLast(p: Prog, op: string, es: seq<Expr>, i: nat, lt: string, lf: string, syscall: string, c: Context)
    requires i + 1 == |es|
    ensures EmitList(p, op, es[i..], lt, lf, syscall, c) == Emit(p, es[i], lt, lf, syscall, c)
  {
    hide Emit;
    assert es[i..] == [es[i]];
  }

  ghost predicate Collected(items: seq<Item>, n: nat, labels: map<string, nat>)
    requires n <= |items|
  {
    && (forall name :: name in labels <==> Find(items, name) < n)
    && (forall name | name in labels :: labels[name] == Pc(items, Find(items, name)))
  }

  lemma FoundFirst(items: seq<Item>, i: nat, labels: map<string, nat>)
    requires i < |items| && items[i].Label? && Collected(items, i, labels) && items[i].name !in labels
    ensures Find(items, items[i].name) == i
  {
  }

  lemma LabelLines(items: seq<Item>, labels: map<string, nat>)
    requires Collected(items, |items|, labels)
    requires forall i, j | 0 <= i < j < |items| && items[i].Label? && items[j].Label? :: items[i].name != items[j].name
    ensures LabelsApart(items) <==> forall a, b | a in labels && b in labels && a != b :: labels[a] != labels[b]
  {
    hide Pc;
    forall i | 0 <= i < |items| && items[i].Label?
      ensures Find(items, items[i].name) == i && items[i].name in labels && labels[items[i].name] == Pc(items, i)
    {
    }
    if LabelsApart(items) {
      forall a, b | a in labels && b in labels && a != b
        ensures labels[a] != labels[b]
      {
        var i, j := Find(items, a), Find(items, b);
        assert items[i].name == a && items[j].name == b;
        assert Pc(items, i) != Pc(items, j);
      }
    }
  }

  lemma {:induction false} EncodeFails(items: seq<Item>, i: nat, n: nat)
    requires i < n <= |items| && !items[i].Label? && Encode(items, i).Err?
    ensures EncodeAll(items, n).Err?
  {
    if i < n - 1 { EncodeFails(items, i, n - 1); }
  }

  // ----- compile_policy ---------------------------------------------------------------

  function Checked(entries: seq<Entry>): seq<Entry> {
    if entries == [] then []
    else
      var n := |entries| - 1;
      if entries[n].cond == None then Checked(entries[..n]) else Checked(entries[..n]) + [entries[n]]
  }

  lemma {:induction false} CheckedFirst(entries: seq<Entry>)
    requires entries != []
    ensures Checked(entries) == (if entries[0].cond == None then [] else [entries[0]]) + Checked(entries[1..])
  {
    var n := |entries| - 1;
    if n > 0 {
      CheckedFirst(entries[..n]);
      assert entries[..n][1..] == entries[1..][..n - 1];
    }
  }

  lemma {:induction false} CheckedSame(p: Prog, entries: seq<Entry>, c: Context)
    ensures EmitChecks(p, Checked(entries), c) == EmitChecks(p, entries, c)
    decreases |entries|
  {
    hide EmitCheck, Checked;
    if entries == [] {
      assert Checked(entries) == [] by { CheckedNone(entries); }
    } else {
      CheckedFirst(entries);
      if entries[0].cond == None {
        assert Checked(entries) == Checked(entries[1..]);
        CheckedSame(p, entries[1..], c);
      } else {
        assert Checked(entries)[0] == entries[0] && Checked(entries)[1..] == Checked(entries[1..]);
        var p1 := EmitCheck(p, entries[0].syscall, entries[0].cond.value, c);
        if p1.Ok? { CheckedSame(p1.value, entries[1..], c); }
      }
    }
  }

  lemma CheckedNone(entries: seq<Entry>)
    requires entries == []
    ensures Checked(entries) == []
  {
  }

  lemma {:induction false} DispatchesGrow(entries: seq<Entry>, i: nat)
    requires i < |entries|
    ensures Dispatches(entries[..i + 1]) == Dispatches(entries[..i]) + [Dispatch(entries[i])]
  {
    hide Dispatch, Dispatches;
  }

  method EmitOneCheck(prog: Program, syscall: string, cond: Expr, c: Context) returns (ok: bool)
    modifies prog
    ensures Did(EmitCheck(old(prog.State()), syscall, cond, c), ok, prog.State())
  {
    hide Emit;
    ok := prog.AddLabel("check_" + syscall);
    if !ok { return; }
    ok := prog.EmitExpr(cond, syscall + "_ALLOW", syscall + "_KILL", syscall, c);
    if !ok { return; }
    ok := prog.AddLabel(syscall + "_KILL");
    if !ok { return; }
    prog.Add(Ret(false));
    ok := prog.AddLabel(syscall + "_ALLOW");
    if !ok { return; }
    prog.Add(Ret(true));
  }

  /** The architecture test and one comparison per entry; the conditional entries
      are collected for later. */
  method EmitPrologue(prog: Program, entries: seq<Entry>) returns (ok: bool, checked: seq<Entry>)
    requires prog.State() == Prog([], 0)
    modifies prog
    ensures ok == Distinct(entries)
    ensures ok ==> prog.State() == Prog(Prologue(entries), 0) && checked == Checked(entries)
  {
    hide Checked, Dispatches, Dispatch;
    checked := [];
    var seen: set<string> := {};
    prog.Add(Load(Arch));
    prog.Add(Jump(Jeq, ArchNr, Next, To(KILL)));
    prog.Add(Load(Nr));
    EmptyPolicy(entries[..0]);
    var i := 0;
    while i < |entries|
      invariant 0 <= i <= |entries|
      invariant prog.State() == Prog(Prologue(entries[..i]), 0) && checked == Checked(entries[..i])
      invariant forall j, k | 0 <= j < k < i :: entries[j].syscall != entries[k].syscall
      invariant forall s :: s in seen <==> exists j | 0 <= j < i :: entries[j].syscall == s
    {
      if entries[i].syscall in seen { return false, checked; }
      seen := seen + {entries[i].syscall};
      prog.Add(Dispatch(entries[i]));
      DispatchesGrow(entries, i);
      CheckedGrow(entries, i);
      if entries[i].cond.Some? { checked := checked + [entries[i]]; }
      i := i + 1;
    }
    assert entries[..i] == entries;
    ok := true;
  }

  lemma EmptyPolicy(entries: seq<Entry>)
    requires entries == []
    ensures Checked(entries) == [] && Dispatches(entries) == []
  {
  }

  lemma CheckedGrow(entries: seq<Entry>, i: nat)
    requires i < |entries|
    ensures Checked(entries[..i + 1]) == Checked(entries[..i]) + if entries[i].cond == None then [] else [entries[i]]
  {
    assert entries[..i + 1][..i] == entries[..i];
  }

  lemma {:induction false} CheckedConditional(entries: seq<Entry>)
    ensures forall k | 0 <= k < |Checked(entries)| :: Checked(entries)[k].cond.Some?
  {
    if entries != [] { CheckedConditional(entries[..|entries| - 1]); }
  }

  /** The code of every collected condition. */
  method EmitAllChecks(prog: Program, checked: seq<Entry>, c: Context) returns (ok: bool)
    requires forall k | 0 <= k < |checked| :: checked[k].cond.Some?
    modifies prog
    ensures Did(EmitChecks(old(prog.State()), checked, c), ok, prog.State())
  {
    hide EmitCheck;
    var i := 0;
    while i < |checked|
      invariant 0 <= i <= |checked|
      invariant EmitChecks(prog.State(), checked[i..], c) == EmitChecks(old(prog.State()), checked, c)
    {
      assert checked[i..][0] == checked[i] && checked[i..][1..] == checked[i + 1..];
      ok := EmitOneCheck(prog, checked[i].syscall, checked[i].cond.value, c);
      if !ok { return; }
      i := i + 1;
    }
    ok := true;
  }

  /** The accepted filters, and only those: the resolved form of Compile. */
  method CompilePolicy(entries: seq<Entry>, c: Context) returns (r: Result<seq<Instr>>)
    ensures r == if Compile(entries, c).Ok? then Resolve(Compile(entries, c).value) else Err
  {
    hide EmitChecks, Resolve, Distinct, Prologue, Checked;
    var prog := new Program();
    var ok, checked := EmitPrologue(prog, entries);
    if !ok { return Err; }
    ok := prog.AddLabel(KILL);
    if !ok { return Err; }
    prog.Add(Ret(false));
    ok := prog.AddLabel(ALLOW);
    if !ok { return Err; }
    prog.Add(Ret(true));
    CheckedSame(prog.State(), entries, c);
    CheckedConditional(entries);
    ok := EmitAllChecks(prog, checked, c);
    if !ok { return Err; }
    r := prog.Render();
  }
}
