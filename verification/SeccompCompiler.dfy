/** The policy compiler as functions on the program under construction. */
module SeccompCompiler {
  import opened Basics
  import opened SeccompSpec
  import opened SeccompCode

  datatype Prog = Prog(items: seq<Item>, labelId: nat)

  function Digits(n: nat): string {
    var d := ['0' + (n % 10) as char];
    if n < 10 then d else Digits(n / 10) + d
  }

  function LabelName(prefix: string, id: nat): string {
    prefix + "_" + Digits(id)
  }

  function Fresh(p: Prog): Prog {
    p.(labelId := p.labelId + 1)
  }

  function Put(p: Prog, item: Item): Prog {
    p.(items := p.items + [item])
  }

  function PutLabel(p: Prog, name: string): Result<Prog> {
    if Label(name) in p.items then Err else Ok(Put(p, Label(name)))
  }

  datatype Words = Words(lo: Const, hi: Const)

  function ImmWords(e: Expr, c: Context): Result<Words> {
    match e
    case Int(v) => if 0 <= v < 0x1_0000_0000 then Ok(Words(Lit(v), Lit(0))) else Err
    case Sym(s) => Ok(if s in c.params then Words(Param(s), Lit(0)) else Words(TextLo(s), TextHi(s)))
    case Str(s) => Ok(Words(TextLo(s), TextHi(s)))
    case List(_) => Err
  }

  /** One comparison of the low word, taken as the last step of every form. */
  function LowJump(op: string, k: Const, lt: string, lf: string): Item {
    if op == "eq" then Jump(Jeq, k, To(lt), To(lf))
    else if op == "<" then Jump(Jge, k, To(lf), To(lt))
    else if op == "<=" then Jump(Jgt, k, To(lf), To(lt))
    else if op == ">" then Jump(Jgt, k, To(lt), To(lf))
    else Jump(Jge, k, To(lt), To(lf))
  }

  function EmitEqWide(p: Prog, n: nat, w: Words, lt: string, lf: string): Result<Prog> {
    var hiOk := LabelName("arg_hi_eq", p.labelId + 1);
    var p1 := Put(Put(Fresh(p), Load(ArgHi(n))), Jump(Jeq, w.hi, To(hiOk), To(lf)));
    var p2 :- PutLabel(p1, hiOk);
    Ok(Put(Put(p2, Load(ArgLo(n))), LowJump("eq", w.lo, lt, lf)))
  }

  function EmitOrderWide(p: Prog, op: string, n: nat, w: Words, lt: string, lf: string): Result<Prog> {
    var mid := LabelName("arg_cmp", p.labelId + 1);
    var eq := LabelName("arg_cmp_eq", p.labelId + 2);
    var below := op == "<" || op == "<=";
    var p1 := Put(Put(Fresh(Fresh(p)), Load(ArgHi(n))), Jump(Jgt, w.hi, To(if below then lf else lt), To(mid)));
    var p2 :- PutLabel(p1, mid);
    var p3 :- PutLabel(Put(p2, Jump(Jeq, w.hi, To(eq), To(if below then lt else lf))), eq);
    Ok(Put(Put(p3, Load(ArgLo(n))), LowJump(op, w.lo, lt, lf)))
  }

  function EmitCmp(p: Prog, op: string, n: nat, imm: Expr, lt: string, lf: string, syscall: string,
          c: Context): Result<Prog> {
    var w :- ImmWords(imm, c);
    var narrow :- IsNarrow(c, syscall, n);
    if narrow then Ok(Put(Put(p, Load(ArgLo(n))), LowJump(op, w.lo, lt, lf)))
    else if op == "eq" then EmitEqWide(p, n, w, lt, lf)
    else EmitOrderWide(p, op, n, w, lt, lf)
  }

  function Mirror(op: string): string {
    if op == "<" then ">"
    else if op == "<=" then ">="
    else if op == ">" then "<"
    else if op == ">=" then "<="
    else op
  }

  function EmitComparison(p: Prog, op: string, lhs: Expr, rhs: Expr, lt: string, lf: string, syscall: string,
          c: Context): Result<Prog> {
    if IsArg(lhs) && !IsArg(rhs) then
      var n :- ArgNo(lhs);
      EmitCmp(p, op, n, rhs, lt, lf, syscall, c)
    else if IsArg(rhs) && !IsArg(lhs) then
      var n :- ArgNo(rhs);
      EmitCmp(p, Mirror(op), n, lhs, lt, lf, syscall, c)
    else Err
  }

  function Emit(p: Prog, e: Expr, lt: string, lf: string, syscall: string, c: Context): Result<Prog>
    decreases e, 1
  {
    if !e.List? || e.es == [] then Err
    else
      var op := Text(e.es[0]);
      if op == "not" then
        if |e.es| != 2 then Err else Emit(p, e.es[1], lf, lt, syscall, c)
      else if op == "and" || op == "or" then
        if |e.es| < 2 then Err else EmitList(p, op, e.es[1..], lt, lf, syscall, c)
      else if IsCmp(op) then
        if |e.es| != 3 then Err else EmitComparison(p, op, e.es[1], e.es[2], lt, lf, syscall, c)
      else if op == "arg" then
        if !IsArg(e) then Err
        else
          var n :- ArgNo(e);
          Ok(Put(p, Load(ArgLo(n))))
      else Err
  }

  /** The operands of an and/or: all but the last jump to the next one when they
      do not decide. */
  function EmitList(p: Prog, op: string, es: seq<Expr>, lt: string, lf: string, syscall: string,
          c: Context): Result<Prog>
    requires es != []
    decreases es, 0
  {
    if |es| == 1 then Emit(p, es[0], lt, lf, syscall, c)
    else
      var next := LabelName(op, p.labelId + 1);
      var p1 :- Emit(Fresh(p), es[0], if op == "and" then next else lt, if op == "and" then lf else next, syscall, c);
      var p2 :- PutLabel(p1, next);
      EmitList(p2, op, es[1..], lt, lf, syscall, c)
  }

  // ----- whole policies -------------------------------------------------------

  const KILL := "RET_KILL_PROCESS"
  const ALLOW := "RET_ALLOW"

  function Dispatch(e: Entry): Item {
    Jump(Jeq, SysNr(e.syscall), To(if e.cond == None then ALLOW else "check_" + e.syscall), Next)
  }

  function Dispatches(entries: seq<Entry>): (r: seq<Item>)
    ensures |r| == |entries|
    ensures forall i | 0 <= i < |r| :: r[i] == Dispatch(entries[i])
  {
    if entries == [] then [] else [Dispatch(entries[0])] + Dispatches(entries[1..])
  }

  function Prologue(entries: seq<Entry>): seq<Item> {
    [Load(Arch), Jump(Jeq, ArchNr, Next, To(KILL)), Load(Nr)] + Dispatches(entries)
  }

  function EmitCheck(p: Prog, syscall: string, cond: Expr, c: Context): Result<Prog> {
    var p1 :- PutLabel(p, "check_" + syscall);
    var p2 :- Emit(p1, cond, syscall + "_ALLOW", syscall + "_KILL", syscall, c);
    var p3 :- PutLabel(p2, syscall + "_KILL");
    var p4 :- PutLabel(Put(p3, Ret(false)), syscall + "_ALLOW");
    Ok(Put(p4, Ret(true)))
  }

  function EmitChecks(p: Prog, entries: seq<Entry>, c: Context): Result<Prog>
    decreases |entries|
  {
    if entries == [] then Ok(p)
    else if entries[0].cond == None then EmitChecks(p, entries[1..], c)
    else
      var p1 :- EmitCheck(p, entries[0].syscall, entries[0].cond.value, c);
      EmitChecks(p1, entries[1..], c)
  }

  predicate Distinct(entries: seq<Entry>) {
    forall i, j | 0 <= i < j < |entries| :: entries[i].syscall != entries[j].syscall
  }

  function Compile(entries: seq<Entry>, c: Context): Result<seq<Item>> {
    if !Distinct(entries) then Err
    else
      var p1 :- PutLabel(Prog(Prologue(entries), 0), KILL);
      var p2 :- PutLabel(Put(p1, Ret(false)), ALLOW);
      var p3 :- EmitChecks(Put(p2, Ret(true)), entries, c);
      var code :- Resolve(p3.items);
      Ok(p3.items)
  }
}
