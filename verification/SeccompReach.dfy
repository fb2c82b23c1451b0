/** How long the code of a condition is and how far its jumps go, from the condition
    alone; and that label resolution succeeds exactly if no jump goes further than 255. */
module SeccompReach {
  import opened SeccompSpec
  import opened SeccompCode
  import opened SeccompCompiler
  import opened SeccompCorrect
  import opened SeccompAccept

  const REACH: nat := 255

  // ----- sizes and distances --------------------------------------------------------------------------

  /** Whether the argument of a comparison is compared by its low word only. */
  predicate Narrow(lhs: Expr, rhs: Expr, syscall: string, c: Context) {
    var a := ArgSide(lhs, rhs);
    IsArg(a) && ArgNo(a).Ok? && IsNarrow(c, syscall, ArgNo(a).value) == Ok(true)
  }

  /** The operator with the argument on the left. */
  function Turned(op: string, lhs: Expr): string { if IsArg(lhs) then op else Mirror(op) }

  /** Instructions of a condition. */
  function Size(e: Expr, syscall: string, c: Context): nat
    decreases e, 1
  {
    if !e.List? || e.es == [] then 0
    else
      var op := Text(e.es[0]);
      if op == "not" then (if |e.es| == 2 then Size(e.es[1], syscall, c) else 0)
      else if op == "and" || op == "or" then Sizes(e.es[1..], syscall, c)
      else if IsCmp(op) then
        if |e.es| != 3 then 0
        else if Narrow(e.es[1], e.es[2], syscall, c) then 2 else if op == "eq" then 4 else 5
      else 1
  }

  function Sizes(es: seq<Expr>, syscall: string, c: Context): nat
    decreases es, 0
  {
    if es == [] then 0 else Size(es[0], syscall, c) + Sizes(es[1..], syscall, c)
  }

  /** Every jump of a comparison reaches its label, the labels being dt and df
      instructions behind the comparison's code. */
  predicate CmpReaches(op: string, narrow: bool, dt: int, df: int) {
    if narrow then dt <= REACH && df <= REACH
    else if op == "eq" then dt <= REACH && df + 2 <= REACH
    else if op == "<" || op == "<=" then df + 3 <= REACH && dt + 2 <= REACH
    else dt + 3 <= REACH && df + 2 <= REACH
  }

  /** The same for a condition: an operand that is not the last jumps to the next operand
      or over all that follow. */
  predicate Reaches(e: Expr, dt: int, df: int, syscall: string, c: Context)
    decreases e, 1
  {
    e.List? && e.es != [] ==>
      var op := Text(e.es[0]);
      if op == "not" then |e.es| == 2 ==> Reaches(e.es[1], df, dt, syscall, c)
      else if op == "and" || op == "or" then |e.es| >= 2 ==> ListReaches(op, e.es[1..], dt, df, syscall, c)
      else if IsCmp(op) then
        |e.es| == 3 ==> CmpReaches(Turned(op, e.es[1]), Narrow(e.es[1], e.es[2], syscall, c), dt, df)
      else true
  }

  predicate ListReaches(op: string, es: seq<Expr>, dt: int, df: int, syscall: string, c: Context)
    requires es != []
    decreases es, 0
  {
    if |es| == 1 then Reaches(es[0], dt, df, syscall, c)
    else
      var rest := Sizes(es[1..], syscall, c);
      && Reaches(es[0], if op == "and" then 0 else rest + dt, if op == "and" then rest + df else 0, syscall, c)
      && ListReaches(op, es[1..], dt, df, syscall, c)
  }

  // ----- resolution -------------------------------------------------------------------------------------

  /** Every instruction in [a, b) can be encoded. */
  predicate Encodes(items: seq<Item>, a: nat, b: nat)
    requires a <= b <= |items|
  {
    forall i | a <= i < b && !items[i].Label? :: Encode(items, i).Ok?
  }

  lemma EncodesJoin(items: seq<Item>, a: nat, b: nat, d: nat)
    requires a <= b <= d <= |items|
    ensures Encodes(items, a, d) <==> Encodes(items, a, b) && Encodes(items, b, d)
  {
    hide Encode;
  }

  lemma {:induction false} EncodeAllIff(items: seq<Item>, n: nat)
    requires n <= |items|
    ensures EncodeAll(items, n).Ok? <==> Encodes(items, 0, n)
  {
    hide Encode;
    if n > 0 {
      EncodeAllIff(items, n - 1);
      EncodesJoin(items, 0, n - 1, n);
    }
  }

  /** The distance from position i on to a label ahead of it. */
  function Dist(items: seq<Item>, i: nat, name: string): int
    requires i <= |items|
  {
    Pc(items, Find(items, name)) - Pc(items, i)
  }

  /** The label is defined, at or behind position i. */
  predicate Ahead(items: seq<Item>, i: nat, name: string) {
    i <= Find(items, name) < |items|
  }

  lemma DistNat(items: seq<Item>, i: nat, name: string)
    requires i <= |items| && Ahead(items, i, name)
    ensures Dist(items, i, name) >= 0
  {
    PcMonotone(items, i, Find(items, name));
  }

  lemma JumpEncodes(items: seq<Item>, i: nat, op: Op, k: Const, x: string, y: string)
    requires i < |items| && items[i] == Jump(op, k, To(x), To(y)) && Ahead(items, i + 1, x) && Ahead(items, i + 1, y)
    ensures Encode(items, i).Ok? <==> Dist(items, i + 1, x) <= REACH && Dist(items, i + 1, y) <= REACH
  {
    DistNat(items, i + 1, x);
    DistNat(items, i + 1, y);
    assert Pc(items, i + 1) == Pc(items, i) + 1;
  }

  // ----- comparisons ------------------------------------------------------------------------------------------

  lemma LowEncodes(items: seq<Item>, i: nat, op: string, k: Const, lt: string, lf: string)
    requires i < |items| && items[i] == LowJump(op, k, lt, lf) && Ahead(items, i + 1, lt) && Ahead(items, i + 1, lf)
    ensures Encode(items, i).Ok? <==> Dist(items, i + 1, lt) <= REACH && Dist(items, i + 1, lf) <= REACH
  {
    hide Encode, Dist, Ahead;
    var j := LowJump(op, k, lt, lf);
    JumpEncodes(items, i, j.op, j.k, j.jt.name, j.jf.name);
  }

  lemma NarrowEncodes(p: Prog, op: string, n: nat, w: Words, lt: string, lf: string, items: seq<Item>)
    requires var q := Put(Put(p, Load(ArgLo(n))), LowJump(op, w.lo, lt, lf));
      q.items <= items && Ahead(items, |q.items|, lt) && Ahead(items, |q.items|, lf)
    ensures var m := |p.items| + 2;
      && Pc(items, m) == Pc(items, |p.items|) + 2
      && (Encodes(items, |p.items|, m) <==> Dist(items, m, lt) <= REACH && Dist(items, m, lf) <= REACH)
  {
    hide Dist, Ahead, Find, Encode, LowJump;
    var i := |p.items|;
    assert items[i] == Load(ArgLo(n)) && items[i + 1] == LowJump(op, w.lo, lt, lf);
    LowIsJump(op, w.lo, lt, lf);
    LowEncodes(items, i + 1, op, w.lo, lt, lf);
    LoadEncodes(items, i);
    PcTwo(items, i);
    TwoEncode(items, i);
  }

  lemma TwoEncode(items: seq<Item>, i: nat)
    requires i + 2 <= |items| && !items[i].Label? && !items[i + 1].Label? && Encode(items, i).Ok?
    ensures Encodes(items, i, i + 2) <==> Encode(items, i + 1).Ok?
  {
    hide Encode;
  }

  lemma PcTwo(items: seq<Item>, i: nat)
    requires i + 2 <= |items|
    ensures Pc(items, i + 1) == Pc(items, i) + (if items[i].Label? then 0 else 1)
    ensures Pc(items, i + 2) == Pc(items, i + 1) + (if items[i + 1].Label? then 0 else 1)
  {
  }

  lemma EqEncodes(p: Prog, n: nat, w: Words, lt: string, lf: string, q: Prog, items: seq<Item>)
    requires EmitEqWide(p, n, w, lt, lf) == Ok(q) && q.items <= items
    requires Ahead(items, |q.items|, lt) && Ahead(items, |q.items|, lf)
    ensures var m := |q.items|;
      && Pc(items, m) == Pc(items, |p.items|) + 4
      && (Encodes(items, |p.items|, m) <==> Dist(items, m, lt) <= REACH && Dist(items, m, lf) + 2 <= REACH)
  {
    hide LabelName, Find, LowJump, Encode, Encodes, EmitEqWide;
    var i, hiOk := |p.items|, LabelName("arg_hi_eq", p.labelId + 1);
    EqShape(p, n, w, lt, lf, q, items);
    LowIsJump("eq", w.lo, lt, lf);
    PcTwo(items, i);
    PcTwo(items, i + 2);
    PcTwo(items, i + 3);
    JumpEncodes(items, i + 1, Jeq, w.hi, hiOk, lf);
    LowEncodes(items, i + 4, "eq", w.lo, lt, lf);
    LoadEncodes(items, i);
    LoadEncodes(items, i + 3);
    FiveEncode(items, i);
  }

  lemma EqShape(p: Prog, n: nat, w: Words, lt: string, lf: string, q: Prog, items: seq<Item>)
    requires EmitEqWide(p, n, w, lt, lf) == Ok(q) && q.items <= items
    ensures |q.items| == |p.items| + 5 <= |items|
    ensures var i, hiOk := |p.items|, LabelName("arg_hi_eq", p.labelId + 1);
      && items[i] == Load(ArgHi(n)) && items[i + 1] == Jump(Jeq, w.hi, To(hiOk), To(lf))
      && items[i + 2] == Label(hiOk) && Find(items, hiOk) == i + 2
      && items[i + 3] == Load(ArgLo(n)) && items[i + 4] == LowJump("eq", w.lo, lt, lf)
  {
    hide LabelName, Find, LowJump;
    var hiOk := LabelName("arg_hi_eq", p.labelId + 1);
    var p1 := Put(Put(Fresh(p), Load(ArgHi(n))), Jump(Jeq, w.hi, To(hiOk), To(lf)));
    LabelFound(p1, hiOk, items);
  }

  lemma LoadEncodes(items: seq<Item>, i: nat)
    requires i < |items| && items[i].Load?
    ensures Encode(items, i).Ok?
  {
  }

  /** An equality of 64 bits: load, jump, label, load, jump. */
  lemma FiveEncode(items: seq<Item>, i: nat)
    requires i + 5 <= |items| && !items[i].Label? && !items[i + 1].Label? && items[i + 2].Label?
    requires !items[i + 3].Label? && !items[i + 4].Label? && Encode(items, i).Ok? && Encode(items, i + 3).Ok?
    ensures Encodes(items, i, i + 5) <==> Encode(items, i + 1).Ok? && Encode(items, i + 4).Ok?
  {
    hide Encode;
  }

  lemma OrderEncodes(p: Prog, op: string, n: nat, w: Words, lt: string, lf: string, q: Prog, items: seq<Item>)
    requires EmitOrderWide(p, op, n, w, lt, lf) == Ok(q) && q.items <= items && op != "eq"
    requires Ahead(items, |q.items|, lt) && Ahead(items, |q.items|, lf)
    ensures var m := |q.items|;
      && Pc(items, m) == Pc(items, |p.items|) + 5
      && (Encodes(items, |p.items|, m) <==> CmpReaches(op, false, Dist(items, m, lt), Dist(items, m, lf)))
  {
    hide LabelName, Find, LowJump, Encode, Encodes, EmitOrderWide;
    var i, m := |p.items|, |q.items|;
    var mid, eq := LabelName("arg_cmp", p.labelId + 1), LabelName("arg_cmp_eq", p.labelId + 2);
    var below := op == "<" || op == "<=";
    var x, y := if below then lf else lt, if below then lt else lf;
    DistNat(items, m, lt);
    DistNat(items, m, lf);
    OrderShape(p, op, n, w, lt, lf, q, items);
    LowIsJump(op, w.lo, lt, lf);
    PcTwo(items, i);
    PcTwo(items, i + 2);
    PcTwo(items, i + 4);
    PcTwo(items, i + 5);
    JumpEncodes(items, i + 1, Jgt, w.hi, x, mid);
    JumpEncodes(items, i + 3, Jeq, w.hi, eq, y);
    LowEncodes(items, i + 6, op, w.lo, lt, lf);
    LoadEncodes(items, i);
    LoadEncodes(items, i + 5);
    SevenEncode(items, i);
  }

  /** An order of 64 bits: load, jump, label, jump, label, load, jump. */
  lemma SevenEncode(items: seq<Item>, i: nat)
    requires i + 7 <= |items| && !items[i].Label? && !items[i + 1].Label? && items[i + 2].Label? && !items[i + 3].Label?
    requires items[i + 4].Label? && !items[i + 5].Label? && !items[i + 6].Label?
    requires Encode(items, i).Ok? && Encode(items, i + 5).Ok?
    ensures Encodes(items, i, i + 7) <==>
      Encode(items, i + 1).Ok? && Encode(items, i + 3).Ok? && Encode(items, i + 6).Ok?
  {
    hide Encode;
  }

  lemma CmpEncodes(p: Prog, op: string, n: nat, imm: Expr, lt: string, lf: string, syscall: string, c: Context,
                   q: Prog, items: seq<Item>)
    requires EmitCmp(p, op, n, imm, lt, lf, syscall, c) == Ok(q) && q.items <= items
    requires Ahead(items, |q.items|, lt) && Ahead(items, |q.items|, lf)
    ensures IsNarrow(c, syscall, n).Ok? && |p.items| <= |q.items|
    ensures var m, narrow := |q.items|, IsNarrow(c, syscall, n).value;
      && Pc(items, m) == Pc(items, |p.items|) + (if narrow then 2 else if op == "eq" then 4 else 5)
      && (Encodes(items, |p.items|, m) <==> CmpReaches(op, narrow, Dist(items, m, lt), Dist(items, m, lf)))
  {
    hide Encodes, Dist, Ahead, EmitEqWide, EmitOrderWide, LowJump;
    var w := ImmWords(imm, c).value;
    CmpGrows(p, op, n, imm, lt, lf, syscall, c);
    if IsNarrow(c, syscall, n).value {
      NarrowEncodes(p, op, n, w, lt, lf, items);
    } else if op == "eq" {
      EqEncodes(p, n, w, lt, lf, q, items);
    } else {
      OrderEncodes(p, op, n, w, lt, lf, q, items);
    }
  }

  // ----- conditions ---------------------------------------------------------------------------------------------

  /** A condition's code has the size it should, and can be encoded exactly if its jumps
      reach their labels. */
  lemma {:induction false} EmitEncodes(p: Prog, e: Expr, lt: string, lf: string, syscall: string, c: Context,
                                       q: Prog, items: seq<Item>)
    requires Emit(p, e, lt, lf, syscall, c) == Ok(q) && q.items <= items
    requires Ahead(items, |q.items|, lt) && Ahead(items, |q.items|, lf)
    ensures |p.items| <= |q.items|
    ensures var m := |q.items|;
      && Pc(items, m) == Pc(items, |p.items|) + Size(e, syscall, c)
      && (Encodes(items, |p.items|, m) <==> Reaches(e, Dist(items, m, lt), Dist(items, m, lf), syscall, c))
    decreases e, 1
  {
    hide EmitCmp, EmitList, Encodes, Dist, Ahead, Sizes, ListReaches, CmpReaches, Pc;
    EmitGrows(p, e, lt, lf, syscall, c);
    var op := Text(e.es[0]);
    if op == "not" {
      EmitEncodes(p, e.es[1], lf, lt, syscall, c, q, items);
    } else if op == "and" || op == "or" {
      ListEncodes(p, op, e.es[1..], lt, lf, syscall, c, q, items);
    } else if IsCmp(op) {
      if IsArg(e.es[1]) {
        CmpEncodes(p, op, ArgNo(e.es[1]).value, e.es[2], lt, lf, syscall, c, q, items);
      } else {
        CmpEncodes(p, Mirror(op), ArgNo(e.es[2]).value, e.es[1], lt, lf, syscall, c, q, items);
      }
    } else {
      ArgEncodes(p, ArgNo(e).value, items);
    }
  }

  lemma ArgEncodes(p: Prog, n: nat, items: seq<Item>)
    requires Put(p, Load(ArgLo(n))).items <= items
    ensures Pc(items, |p.items| + 1) == Pc(items, |p.items|) + 1 && Encodes(items, |p.items|, |p.items| + 1)
  {
    assert items[|p.items|] == Load(ArgLo(n));
  }

  lemma {:induction false} ListEncodes(p: Prog, op: string, es: seq<Expr>, lt: string, lf: string, syscall: string,
                                       c: Context, q: Prog, items: seq<Item>)
    requires es != [] && EmitList(p, op, es, lt, lf, syscall, c) == Ok(q) && q.items <= items
    requires Ahead(items, |q.items|, lt) && Ahead(items, |q.items|, lf)
    ensures |p.items| <= |q.items|
    ensures var m := |q.items|;
      && Pc(items, m) == Pc(items, |p.items|) + Sizes(es, syscall, c)
      && (Encodes(items, |p.items|, m) <==> ListReaches(op, es, Dist(items, m, lt), Dist(items, m, lf), syscall, c))
    decreases es, 0
  {
    hide Emit, Encodes, LabelName, Reaches, Size, Find, Pc, Dist;
    EmitListGrows(p, op, es, lt, lf, syscall, c);
    if |es| == 1 {
      EmitEncodes(p, es[0], lt, lf, syscall, c, q, items);
      assert Sizes(es[1..], syscall, c) == 0;
    } else {
      var next := LabelName(op, p.labelId + 1);
      var tt, ff := if op == "and" then next else lt, if op == "and" then lf else next;
      var p1 := Emit(Fresh(p), es[0], tt, ff, syscall, c).value;
      var p2 := PutLabel(p1, next).value;
      EmitListGrows(p2, op, es[1..], lt, lf, syscall, c);
      EmitGrows(Fresh(p), es[0], tt, ff, syscall, c);
      LabelFound(p1, next, items);
      AheadOf(items, |p1.items|, |q.items|, lt);
      AheadOf(items, |p1.items|, |q.items|, lf);
      LabelIsHere(items, |p1.items|, next);
      EmitEncodes(Fresh(p), es[0], tt, ff, syscall, c, p1, items);
      ListEncodes(p2, op, es[1..], lt, lf, syscall, c, q, items);
      LabelPasses(items, |p1.items|);
      EncodesJoin(items, |p.items|, |p1.items|, |q.items|);
      EncodesJoin(items, |p1.items|, |p2.items|, |q.items|);
    }
  }

  lemma AheadOf(items: seq<Item>, i: nat, j: nat, name: string)
    requires i <= j <= |items| && Ahead(items, j, name)
    ensures Ahead(items, i, name) && Dist(items, i, name) == Dist(items, j, name) + Pc(items, j) - Pc(items, i)
  {
  }

  lemma LabelIsHere(items: seq<Item>, i: nat, name: string)
    requires i < |items| && Find(items, name) == i
    ensures Ahead(items, i, name) && Dist(items, i, name) == 0
  {
  }

  lemma LabelPasses(items: seq<Item>, i: nat)
    requires i < |items| && items[i].Label?
    ensures Pc(items, i + 1) == Pc(items, i) && Encodes(items, i, i + 1)
  {
  }
}
