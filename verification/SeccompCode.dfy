/** Labelled filter programs, their meaning, and the resolution of labels into
    the 8-bit forward offsets of classic BPF. */
module SeccompCode {
  import opened SeccompSpec

  datatype Source = Arch | Nr | ArgLo(n: nat) | ArgHi(n: nat)
  datatype Op = Jeq | Jgt | Jge
  /** A constant as it stands in the generated C text. */
  datatype Const =
    | ArchNr
    | SysNr(name: string)
    | Lit(n: nat)
    | Param(name: string)
    | TextLo(text: string)
    | TextHi(text: string)
  /** The compiler's integer targets are always 0: the next instruction. */
  datatype Target = Next | To(name: string)
  datatype Item =
    | Load(src: Source)
    | Jump(op: Op, k: Const, jt: Target, jf: Target)
    | Ret(allow: bool)
    | Label(name: string)

  datatype Instr = ILoad(src: Source) | IJump(op: Op, k: Const, jt: nat, jf: nat) | IRet(allow: bool)
  datatype Outcome = Returned(allow: bool) | Fault

  function Fetch(src: Source, call: Call): nat {
    match src
    case Arch => call.arch
    case Nr => call.nr
    case ArgLo(n) => Arg(call, n) % 0x1_0000_0000
    case ArgHi(n) => Arg(call, n) / 0x1_0000_0000
  }

  function Value(k: Const, env: Env): nat {
    match k
    case ArchNr => env.archNr
    case SysNr(name) => env.sys(name)
    case Lit(n) => n
    case Param(name) => env.param(name) % 0x1_0000_0000
    case TextLo(text) => env.constant(text) % 0x1_0000_0000
    case TextHi(text) => env.constant(text) / 0x1_0000_0000 % 0x1_0000_0000
  }

  predicate Test(op: Op, acc: nat, k: nat) {
    match op
    case Jeq => acc == k
    case Jgt => acc > k
    case Jge => acc >= k
  }

  /** Position of a label: its first occurrence, or the end if there is none. */
  function Find(items: seq<Item>, name: string): (i: nat)
    ensures i <= |items|
    ensures i < |items| ==> items[i] == Label(name)
    ensures forall j | 0 <= j < i :: items[j] != Label(name)
  {
    if items == [] then 0
    else if items[0] == Label(name) then 0
    else
      var i := Find(items[1..], name);
      assert forall j | 0 < j < i + 1 :: items[j] == items[1..][j - 1];
      i + 1
  }

  /** Meaning of a labelled program from position i with acc in the accumulator:
      labels are passed over and jumps go forward only. */
  function Exec(items: seq<Item>, i: nat, acc: nat, env: Env, call: Call): Outcome
    decreases |items| - i
  {
    if i >= |items| then Fault
    else match items[i]
      case Label(_) => Exec(items, i + 1, acc, env, call)
      case Load(src) => Exec(items, i + 1, Fetch(src, call), env, call)
      case Ret(allow) => Returned(allow)
      case Jump(op, k, jt, jf) =>
        match if Test(op, acc, Value(k, env)) then jt else jf
        case Next => Exec(items, i + 1, acc, env, call)
        case To(name) => if i < Find(items, name) then Exec(items, Find(items, name), acc, env, call) else Fault
  }

  // ----- resolution ---------------------------------------------------------

  /** Number of instructions before position i. */
  function Pc(items: seq<Item>, i: nat): (n: nat)
    requires i <= |items|
    ensures n <= i
  {
    if i == 0 then 0 else Pc(items, i - 1) + if items[i - 1].Label? then 0 else 1
  }

  function InstructionCount(items: seq<Item>): nat {
    Pc(items, |items|)
  }

  /** The offset encoded for a target by the instruction at position i. */
  function Offset(items: seq<Item>, i: nat, t: Target): Result<nat>
    requires i <= |items|
  {
    match t
    case Next => Ok(0)
    case To(name) =>
      if Find(items, name) == |items| then Err
      else
        var off := Pc(items, Find(items, name)) - Pc(items, i) - 1;
        if 0 <= off <= 255 then Ok(off) else Err
  }

  function Encode(items: seq<Item>, i: nat): Result<Instr>
    requires i < |items| && !items[i].Label?
  {
    match items[i]
    case Load(src) => Ok(ILoad(src))
    case Ret(allow) => Ok(IRet(allow))
    case Jump(op, k, jt, jf) =>
      var t :- Offset(items, i, jt);
      var f :- Offset(items, i, jf);
      Ok(IJump(op, k, t, f))
  }

  /** Instructions of the first n items. */
  function EncodeAll(items: seq<Item>, n: nat): (r: Result<seq<Instr>>)
    requires n <= |items|
    ensures r.Ok? ==> |r.value| == Pc(items, n)
  {
    if n == 0 then Ok([])
    else
      var code :- EncodeAll(items, n - 1);
      if items[n - 1].Label? then Ok(code)
      else
        var ins :- Encode(items, n - 1);
        Ok(code + [ins])
  }

  /** No label is defined twice and no two labels share an instruction. */
  predicate LabelsApart(items: seq<Item>) {
    forall i, j | 0 <= i < j < |items| && items[i].Label? && items[j].Label? ::
      items[i].name != items[j].name && Pc(items, i) != Pc(items, j)
  }

  function Resolve(items: seq<Item>): (r: Result<seq<Instr>>)
    ensures r.Ok? ==> |r.value| == InstructionCount(items)
  {
    if LabelsApart(items) then EncodeAll(items, |items|) else Err
  }

  // ----- the BPF machine ----------------------------------------------------

  datatype Run = Done(allow: bool, steps: nat) | Crash

  /** Runs the filter from pc; a jump or a fall past the end is a crash. */
  function Machine(code: seq<Instr>, pc: nat, acc: nat, env: Env, call: Call): (r: Run)
    ensures r.Done? ==> pc + r.steps <= |code|
    decreases |code| - pc
  {
    if pc >= |code| then Crash
    else
      match code[pc]
      case IRet(allow) => Done(allow, 1)
      case ILoad(src) => Tick(Machine(code, pc + 1, Fetch(src, call), env, call))
      case IJump(op, k, jt, jf) =>
        Tick(Machine(code, pc + 1 + if Test(op, acc, Value(k, env)) then jt else jf, acc, env, call))
  }

  function Tick(r: Run): Run {
    if r.Done? then Done(r.allow, r.steps + 1) else Crash
  }

  function Verdict(r: Run): Outcome {
    if r.Done? then Returned(r.allow) else Fault
  }

  // ----- resolution preserves meaning ----------------------------------------

  lemma {:induction false} PcMonotone(items: seq<Item>, i: nat, j: nat)
    requires i <= j <= |items|
    ensures Pc(items, i) <= Pc(items, j) <= Pc(items, i) + (j - i)
    decreases j
  {
    if i < j { PcMonotone(items, i, j - 1); }
  }

  lemma {:induction false} EncodedAt(items: seq<Item>, n: nat, i: nat)
    requires i < n <= |items| && !items[i].Label? && EncodeAll(items, n).Ok?
    ensures Pc(items, i) < |EncodeAll(items, n).value|
    ensures Encode(items, i) == Ok(EncodeAll(items, n).value[Pc(items, i)])
  {
    PcMonotone(items, i + 1, n);
    if i < n - 1 {
      PcMonotone(items, i + 1, n - 1);
      EncodedAt(items, n - 1, i);
    }
  }

  /** One jump of the resolved filter lands where the labelled jump goes. */
  lemma JumpPreserves(items: seq<Item>, i: nat, t: Target)
    requires i < |items| && !items[i].Label? && Offset(items, i, t).Ok?
    ensures t.To? ==> i < Find(items, t.name) < |items|
    ensures Pc(items, i) + 1 + Offset(items, i, t).value == Pc(items, if t.To? then Find(items, t.name) else i + 1)
  {
    if t.To? && Find(items, t.name) <= i {
      PcMonotone(items, Find(items, t.name), i);
    }
  }

  /** The instruction the machine finds where item i was encoded. */
  lemma Fetched(items: seq<Item>, i: nat)
    requires Resolve(items).Ok? && i < |items| && !items[i].Label?
    ensures Pc(items, i + 1) == Pc(items, i) + 1 <= |Resolve(items).value|
    ensures Encode(items, i) == Ok(Resolve(items).value[Pc(items, i)])
  {
    EncodedAt(items, |items|, i);
  }

  /** The resolved filter does what the labelled program means. */
  lemma {:induction false} ResolvePreserves(items: seq<Item>, i: nat, acc: nat, env: Env, call: Call)
    requires Resolve(items).Ok? && i <= |items|
    ensures Verdict(Machine(Resolve(items).value, Pc(items, i), acc, env, call)) == Exec(items, i, acc, env, call)
    decreases |items| - i
  {
    hide Resolve, Find, Offset, Test, Value;
    if i < |items| && items[i].Label? {
      ResolvePreserves(items, i + 1, acc, env, call);
    } else if i < |items| {
      Fetched(items, i);
      match items[i]
      case Ret(_) =>
      case Load(src) => ResolvePreserves(items, i + 1, Fetch(src, call), env, call);
      case Jump(op, k, jt, jf) =>
        var t := if Test(op, acc, Value(k, env)) then jt else jf;
        JumpPreserves(items, i, t);
        ResolvePreserves(items, if t.To? then Find(items, t.name) else i + 1, acc, env, call);
    }
  }

  /** A filter whose last item is a RET never runs off its end: every call is
      answered, and the machine's own bound then limits the steps. */
  lemma {:induction false} AlwaysReturns(items: seq<Item>, i: nat, acc: nat, env: Env, call: Call)
    requires Resolve(items).Ok? && i < |items| && items[|items| - 1].Ret?
    ensures Exec(items, i, acc, env, call).Returned?
    decreases |items| - i
  {
    match items[i]
    case Ret(_) =>
    case Label(_) => AlwaysReturns(items, i + 1, acc, env, call);
    case Load(src) => AlwaysReturns(items, i + 1, Fetch(src, call), env, call);
    case Jump(op, k, jt, jf) =>
      Fetched(items, i);
      var t := if Test(op, acc, Value(k, env)) then jt else jf;
      JumpPreserves(items, i, t);
      AlwaysReturns(items, if t.To? then Find(items, t.name) else i + 1, acc, env, call);
  }
}
