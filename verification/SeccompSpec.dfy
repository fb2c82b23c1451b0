/** The seccomp policy language and what a policy means, independent of the
    compiler. */
module SeccompSpec {
  import opened Basics

  datatype Result<+T> = Ok(value: T) | Err {
    predicate IsFailure() { Err? }
    function PropagateFailure<U>(): Result<U>
      requires Err?
    {
      Err
    }
    function Extract(): T
      requires Ok?
    {
      value
    }
  }

  /** A parsed s-expression. */
  datatype Expr = Int(v: int) | Str(s: string) | Sym(s: string) | List(es: seq<Expr>)

  datatype ArgType = IntType | LongType | Untyped

  /** A policy line: a syscall, and the condition under which it is allowed. */
  datatype Entry = Entry(syscall: string, cond: Option<Expr>)

  /** Compile-time context: the policy's uint parameters and the syscall
      prototypes. */
  datatype Context = Context(params: set<string>, table: map<string, seq<ArgType>>)

  /** What the C compiler substitutes: the native architecture, the SYS_
      numbers, the values of constant texts and of parameters. */
  datatype Env = Env(archNr: nat, sys: string -> nat, constant: string -> nat, param: string -> nat)

  /** The data the kernel hands to the filter. */
  datatype Call = Call(arch: nat, nr: nat, args: seq<nat>)

  function Text(e: Expr): string {
    match e
    case Sym(s) => s
    case Str(s) => s
    case _ => ""
  }

  predicate IsArg(e: Expr) {
    e.List? && |e.es| == 2 && Text(e.es[0]) == "arg"
  }

  /** Argument number of (arg N). */
  function ArgNo(e: Expr): Result<nat>
    requires IsArg(e)
  {
    if e.es[1].Int? && 0 <= e.es[1].v <= 5 then Ok(e.es[1].v) else Err
  }

  /** Whether the kernel looks only at the low 32 bits of an argument. */
  function IsNarrow(c: Context, syscall: string, n: nat): Result<bool> {
    if syscall !in c.table || n >= |c.table[syscall]| || c.table[syscall][n] == Untyped then Err
    else Ok(c.table[syscall][n] == IntType)
  }

  /** The 64-bit value of an immediate operand. */
  function Immediate(e: Expr, c: Context, env: Env): nat {
    match e
    case Int(v) => if v < 0 then 0 else v
    case Sym(s) => if s in c.params then env.param(s) % 0x1_0000_0000 else env.constant(s) % 0x1_0000_0000_0000_0000
    case Str(s) => env.constant(s) % 0x1_0000_0000_0000_0000
    case List(es) => 0
  }

  predicate IsCmp(op: string) {
    op == "eq" || op == "<" || op == "<=" || op == ">" || op == ">="
  }

  predicate Compare(op: string, a: nat, b: nat) {
    if op == "eq" then a == b
    else if op == "<" then a < b
    else if op == "<=" then a <= b
    else if op == ">" then a > b
    else a >= b
  }

  function Arg(call: Call, n: nat): nat {
    if n < |call.args| then call.args[n] else 0
  }

  /** The value of one side of a comparison, seen at the argument's width. */
  function Operand(e: Expr, narrow: bool, c: Context, env: Env, call: Call): nat {
    var v := if IsArg(e) && ArgNo(e).Ok? then Arg(call, ArgNo(e).value) else Immediate(e, c, env);
    if narrow then v % 0x1_0000_0000 else v
  }

  /** Meaning of a comparison: unsigned, over the low 32 bits if the argument is
      an int and over all 64 otherwise. */
  predicate CmpHolds(op: string, lhs: Expr, rhs: Expr, syscall: string, c: Context, env: Env, call: Call) {
    var a := if IsArg(lhs) then lhs else rhs;
    var narrow := IsArg(a) && ArgNo(a).Ok? && IsNarrow(c, syscall, ArgNo(a).value) == Ok(true);
    Compare(op, Operand(lhs, narrow, c, env, call), Operand(rhs, narrow, c, env, call))
  }

  /** Truth of a condition. */
  predicate Holds(e: Expr, syscall: string, c: Context, env: Env, call: Call)
    decreases e, 1
  {
    e.List? && e.es != [] &&
    var op := Text(e.es[0]);
    if op == "not" then |e.es| == 2 && !Holds(e.es[1], syscall, c, env, call)
    else if op == "and" then HoldsAll(e.es[1..], syscall, c, env, call)
    else if op == "or" then HoldsAny(e.es[1..], syscall, c, env, call)
    else IsCmp(op) && |e.es| == 3 && CmpHolds(op, e.es[1], e.es[2], syscall, c, env, call)
  }

  predicate HoldsAll(es: seq<Expr>, syscall: string, c: Context, env: Env, call: Call)
    decreases es, 0
  {
    forall i | 0 <= i < |es| :: Holds(es[i], syscall, c, env, call)
  }

  predicate HoldsAny(es: seq<Expr>, syscall: string, c: Context, env: Env, call: Call)
    decreases es, 0
  {
    exists i | 0 <= i < |es| :: Holds(es[i], syscall, c, env, call)
  }

  /** A condition in which (arg N) stands only as an operand of a comparison. */
  predicate NoBareArg(e: Expr)
    decreases e
  {
    e.List? && e.es != [] ==>
      var op := Text(e.es[0]);
      && op != "arg"
      && (op == "not" || op == "and" || op == "or" ==> forall i | 1 <= i < |e.es| :: NoBareArg(e.es[i]))
  }

  /** What a condition decides. An (arg N) that is not an operand of a comparison has no
      truth value and decides nothing; an operand of an and/or that decides nothing is
      passed over, and the last operand's answer is the list's. */
  function Decides(e: Expr, syscall: string, c: Context, env: Env, call: Call): Option<bool>
    decreases e, 1
  {
    if !e.List? || e.es == [] then None
    else
      var op := Text(e.es[0]);
      if op == "not" && |e.es| == 2 then
        match Decides(e.es[1], syscall, c, env, call)
        case Some(b) => Some(!b)
        case None => None
      else if (op == "and" || op == "or") && |e.es| > 1 then DecidesList(op, e.es[1..], syscall, c, env, call)
      else if IsCmp(op) && |e.es| == 3 then Some(CmpHolds(op, e.es[1], e.es[2], syscall, c, env, call))
      else None
  }

  function DecidesList(op: string, es: seq<Expr>, syscall: string, c: Context, env: Env, call: Call): Option<bool>
    requires es != []
    decreases es, 0
  {
    var d := Decides(es[0], syscall, c, env, call);
    if |es| == 1 || d == Some(op != "and") then d else DecidesList(op, es[1..], syscall, c, env, call)
  }

  /** Like Listed, for policies with any condition the compiler takes: a call passes its
      entry when the condition decides for it. */
  predicate Admitted(entries: seq<Entry>, c: Context, env: Env, call: Call) {
    entries != [] &&
    if call.nr == env.sys(entries[0].syscall) then
      entries[0].cond == None || Decides(entries[0].cond.value, entries[0].syscall, c, env, call) == Some(true)
    else Admitted(entries[1..], c, env, call)
  }

  /** The first entry whose number is the call's decides. */
  predicate Allowed(entries: seq<Entry>, c: Context, env: Env, call: Call) {
    call.arch == env.archNr && Listed(entries, c, env, call)
  }

  predicate Listed(entries: seq<Entry>, c: Context, env: Env, call: Call) {
    entries != [] &&
    if call.nr == env.sys(entries[0].syscall) then
      entries[0].cond == None || Holds(entries[0].cond.value, entries[0].syscall, c, env, call)
    else Listed(entries[1..], c, env, call)
  }
}
