/** Which policies the compiler accepts, said in terms of the policy alone. */
module SeccompAccept {
  import opened SeccompSpec
  import opened SeccompCode
  import opened SeccompCompiler
  import opened SeccompCorrect
  import opened SeccompLabels

  // ----- conditions that compile -------------------------------------------------------------------

  /** Immediates are names, texts and numbers of 32 bits. */
  predicate ImmOk(e: Expr) {
    match e
    case Int(v) => 0 <= v < 0x1_0000_0000
    case Sym(_) => true
    case Str(_) => true
    case List(_) => false
  }

  /** The side of a comparison that is the argument, and the other one. */
  function ArgSide(lhs: Expr, rhs: Expr): Expr { if IsArg(lhs) then lhs else rhs }
  function ImmSide(lhs: Expr, rhs: Expr): Expr { if IsArg(lhs) then rhs else lhs }

  /** A comparison of one argument, whose prototype is known, with an immediate. */
  predicate CmpOk(lhs: Expr, rhs: Expr, syscall: string, c: Context) {
    && IsArg(ArgSide(lhs, rhs)) && !IsArg(ImmSide(lhs, rhs))
    && ArgNo(ArgSide(lhs, rhs)).Ok? && IsNarrow(c, syscall, ArgNo(ArgSide(lhs, rhs)).value).Ok?
    && ImmOk(ImmSide(lhs, rhs))
  }

  /** A condition built of not, and, or, comparisons and arguments. */
  predicate CondOk(e: Expr, syscall: string, c: Context)
    decreases e, 1
  {
    e.List? && e.es != [] &&
    var op := Text(e.es[0]);
    if op == "not" then |e.es| == 2 && CondOk(e.es[1], syscall, c)
    else if op == "and" || op == "or" then |e.es| >= 2 && CondsOk(e.es[1..], syscall, c)
    else if IsCmp(op) then |e.es| == 3 && CmpOk(e.es[1], e.es[2], syscall, c)
    else IsArg(e) && ArgNo(e).Ok?
  }

  predicate CondsOk(es: seq<Expr>, syscall: string, c: Context)
    decreases es, 0
  {
    forall i | 0 <= i < |es| :: CondOk(es[i], syscall, c)
  }

  // ----- a condition compiles exactly if it is one -----------------------------------------------------

  lemma EqWideOk(p: Prog, n: nat, w: Words, lt: string, lf: string, used: set<string>)
    requires Labelled(p, used)
    ensures var r := EmitEqWide(p, n, w, lt, lf); r.Ok? && Added(p, r.value)
  {
    hide LabelName, Labelled, Within;
    NextIsNew(p, used, "arg_hi_eq", p.labelId + 1);
    IsWithin("arg_hi_eq", p.labelId + 1, p.labelId, p.labelId + 1);
  }

  lemma OrderWideOk(p: Prog, op: string, n: nat, w: Words, lt: string, lf: string, used: set<string>)
    requires Labelled(p, used)
    ensures var r := EmitOrderWide(p, op, n, w, lt, lf); r.Ok? && Added(p, r.value)
  {
    hide LabelName, Labelled, Within, LowJump;
    var mid, eq := LabelName("arg_cmp", p.labelId + 1), LabelName("arg_cmp_eq", p.labelId + 2);
    NextIsNew(p, used, "arg_cmp", p.labelId + 1);
    NextIsNew(p, used, "arg_cmp_eq", p.labelId + 2);
    CmpNamesApart(p.labelId);
    IsWithin("arg_cmp", p.labelId + 1, p.labelId, p.labelId + 2);
    IsWithin("arg_cmp_eq", p.labelId + 2, p.labelId, p.labelId + 2);
    LowIsJump(op, w.lo, lt, lf);
  }

  lemma LowIsJump(op: string, k: Const, lt: string, lf: string)
    ensures LowJump(op, k, lt, lf).Jump?
  {
  }

  lemma CmpNamesApart(id: nat)
    ensures LabelName("arg_cmp", id + 1) != LabelName("arg_cmp_eq", id + 2)
  {
    if LabelName("arg_cmp", id + 1) == LabelName("arg_cmp_eq", id + 2) {
      NamesApart("arg_cmp", id + 1, "arg_cmp_eq", id + 2);
    }
  }

  lemma CmpAccepted(p: Prog, op: string, lhs: Expr, rhs: Expr, lt: string, lf: string, syscall: string, c: Context,
                    used: set<string>)
    requires Labelled(p, used)
    ensures var r := EmitComparison(p, op, lhs, rhs, lt, lf, syscall, c);
      (r.Ok? <==> CmpOk(lhs, rhs, syscall, c)) && (r.Ok? ==> Added(p, r.value))
  {
    hide Labelled, EmitEqWide, EmitOrderWide, Within;
    if CmpOk(lhs, rhs, syscall, c) {
      var n := ArgNo(ArgSide(lhs, rhs)).value;
      var w := ImmWords(ImmSide(lhs, rhs), c).value;
      EqWideOk(p, n, w, lt, lf, used);
      OrderWideOk(p, if IsArg(lhs) then op else Mirror(op), n, w, lt, lf, used);
    }
  }

  /** The compiler takes exactly the conditions; generated labels are never in its way. */
  lemma {:induction false} EmitAccepted(p: Prog, e: Expr, lt: string, lf: string, syscall: string, c: Context,
                                        used: set<string>)
    requires Labelled(p, used)
    ensures var r := Emit(p, e, lt, lf, syscall, c);
      (r.Ok? <==> CondOk(e, syscall, c)) && (r.Ok? ==> Added(p, r.value))
    decreases e, 1
  {
    hide Labelled, EmitComparison, EmitList, CmpOk, CondsOk, Within;
    if e.List? && e.es != [] {
      var op := Text(e.es[0]);
      if op == "not" {
        if |e.es| == 2 { EmitAccepted(p, e.es[1], lf, lt, syscall, c, used); }
      } else if op == "and" || op == "or" {
        if |e.es| >= 2 { ListAccepted(p, op, e.es[1..], lt, lf, syscall, c, used); }
      } else if IsCmp(op) {
        if |e.es| == 3 { CmpAccepted(p, op, e.es[1], e.es[2], lt, lf, syscall, c, used); }
      }
    }
  }

  lemma {:induction false} ListAccepted(p: Prog, op: string, es: seq<Expr>, lt: string, lf: string, syscall: string,
                                        c: Context, used: set<string>)
    requires Labelled(p, used) && es != [] && (op == "and" || op == "or")
    ensures var r := EmitList(p, op, es, lt, lf, syscall, c);
      (r.Ok? <==> CondsOk(es, syscall, c)) && (r.Ok? ==> Added(p, r.value))
    decreases es, 0
  {
    hide Labelled, Emit, LabelName, CondOk, CondsOk, Added;
    CondsStep(es, syscall, c);
    if |es| == 1 {
      EmitAccepted(p, es[0], lt, lf, syscall, c, used);
    } else {
      var next := LabelName(op, p.labelId + 1);
      var tt, ff := if op == "and" then next else lt, if op == "and" then lf else next;
      FreshAdded(p);
      LabelledOn(p, Fresh(p), used);
      EmitAccepted(Fresh(p), es[0], tt, ff, syscall, c, used);
      if CondOk(es[0], syscall, c) {
        var p1 := Emit(Fresh(p), es[0], tt, ff, syscall, c).value;
        KeptBackIsNew(p, p1, used, op);
        var p2 := Put(p1, Label(next));
        KeptBackAdded(p, p1, op);
        LabelledOn(p, p2, used);
        ListAccepted(p2, op, es[1..], lt, lf, syscall, c, used);
        if CondsOk(es[1..], syscall, c) { AddedOn(p, p2, EmitList(p2, op, es[1..], lt, lf, syscall, c).value); }
      }
    }
  }

  lemma CondsStep(es: seq<Expr>, syscall: string, c: Context)
    requires es != []
    ensures CondsOk(es, syscall, c) <==> CondOk(es[0], syscall, c) && (|es| > 1 ==> CondsOk(es[1..], syscall, c))
  {
    hide CondOk;
    assert forall i | 1 <= i < |es| :: es[i] == es[1..][i - 1];
  }

  lemma FreshAdded(p: Prog)
    ensures Added(p, Fresh(p))
  {
  }

  lemma KeptBackAdded(p: Prog, p1: Prog, op: string)
    requires op in PREFIXES && Added(Fresh(p), p1)
    ensures Added(p, Put(p1, Label(LabelName(op, p.labelId + 1))))
  {
    hide LabelName;
    FreshAdded(p);
    AddedOn(p, Fresh(p), p1);
    IsWithin(op, p.labelId + 1, p.labelId, p1.labelId);
  }

  // ----- labels are apart --------------------------------------------------------------------------------

  /** Every label is followed by an instruction. */
  predicate Spaced(items: seq<Item>) {
    forall i | 0 <= i < |items| - 1 :: !(items[i].Label? && items[i + 1].Label?)
  }

  predicate Unique(items: seq<Item>) {
    forall i, j | 0 <= i < j < |items| && items[i].Label? && items[j].Label? :: items[i].name != items[j].name
  }

  predicate EndsPlain(items: seq<Item>) {
    items != [] && !items[|items| - 1].Label?
  }

  predicate Shaped(items: seq<Item>) {
    Spaced(items) && Unique(items)
  }

  lemma PutPlain(p: Prog, x: Item)
    requires Shaped(p.items) && !x.Label?
    ensures Shaped(Put(p, x).items) && EndsPlain(Put(p, x).items)
  {
  }

  lemma PutNamed(p: Prog, name: string)
    requires Shaped(p.items) && EndsPlain(p.items) && PutLabel(p, name).Ok?
    ensures Shaped(PutLabel(p, name).value.items)
  {
  }

  lemma CmpShaped(p: Prog, op: string, n: nat, imm: Expr, lt: string, lf: string, syscall: string, c: Context, q: Prog)
    requires EmitCmp(p, op, n, imm, lt, lf, syscall, c) == Ok(q) && Shaped(p.items)
    ensures Shaped(q.items) && EndsPlain(q.items) && |p.items| < |q.items| && !q.items[|p.items|].Label?
  {
    hide LabelName, Shaped, PutLabel;
    var w := ImmWords(imm, c).value;
    if IsNarrow(c, syscall, n).value {
      PutPlain(p, Load(ArgLo(n)));
      LowIsJump(op, w.lo, lt, lf);
      PutPlain(Put(p, Load(ArgLo(n))), LowJump(op, w.lo, lt, lf));
    } else if op == "eq" {
      EqShaped(p, n, w, lt, lf, q);
    } else {
      OrderShaped(p, op, n, w, lt, lf, q);
    }
  }

  lemma FreshShaped(p: Prog)
    requires Shaped(p.items)
    ensures Shaped(Fresh(p).items)
  {
  }

  lemma EqShaped(p: Prog, n: nat, w: Words, lt: string, lf: string, q: Prog)
    requires EmitEqWide(p, n, w, lt, lf) == Ok(q) && Shaped(p.items)
    ensures Shaped(q.items) && EndsPlain(q.items) && |p.items| < |q.items| && !q.items[|p.items|].Label?
  {
    hide LabelName, Shaped;
    var hiOk := LabelName("arg_hi_eq", p.labelId + 1);
    var p0 := Put(Fresh(p), Load(ArgHi(n)));
    var p1 := Put(p0, Jump(Jeq, w.hi, To(hiOk), To(lf)));
    var p2 := PutLabel(p1, hiOk).value;
    var p3 := Put(p2, Load(ArgLo(n)));
    FreshShaped(p);
    PutPlain(Fresh(p), Load(ArgHi(n)));
    PutPlain(p0, Jump(Jeq, w.hi, To(hiOk), To(lf)));
    PutNamed(p1, hiOk);
    PutPlain(p2, Load(ArgLo(n)));
    LowIsJump("eq", w.lo, lt, lf);
    PutPlain(p3, LowJump("eq", w.lo, lt, lf));
  }

  lemma OrderShaped(p: Prog, op: string, n: nat, w: Words, lt: string, lf: string, q: Prog)
    requires EmitOrderWide(p, op, n, w, lt, lf) == Ok(q) && Shaped(p.items)
    ensures Shaped(q.items) && EndsPlain(q.items) && |p.items| < |q.items| && !q.items[|p.items|].Label?
  {
    hide LabelName, Shaped, LowJump;
    var mid, eq := LabelName("arg_cmp", p.labelId + 1), LabelName("arg_cmp_eq", p.labelId + 2);
    var below := op == "<" || op == "<=";
    var j1, j2 := Jump(Jgt, w.hi, To(if below then lf else lt), To(mid)),
        Jump(Jeq, w.hi, To(eq), To(if below then lt else lf));
    var p0 := Put(Fresh(Fresh(p)), Load(ArgHi(n)));
    var p1 := Put(p0, j1);
    var p2 := PutLabel(p1, mid).value;
    var p3 := Put(p2, j2);
    var p4 := PutLabel(p3, eq).value;
    var p5 := Put(p4, Load(ArgLo(n)));
    FreshShaped(p);
    FreshShaped(Fresh(p));
    PutPlain(Fresh(Fresh(p)), Load(ArgHi(n)));
    PutPlain(p0, j1);
    PutNamed(p1, mid);
    PutPlain(p2, j2);
    PutNamed(p3, eq);
    PutPlain(p4, Load(ArgLo(n)));
    LowIsJump(op, w.lo, lt, lf);
    PutPlain(p5, LowJump(op, w.lo, lt, lf));
  }

  lemma {:induction false} EmitShaped(p: Prog, e: Expr, lt: string, lf: string, syscall: string, c: Context, q: Prog)
    requires Emit(p, e, lt, lf, syscall, c) == Ok(q) && Shaped(p.items)
    ensures Shaped(q.items) && EndsPlain(q.items) && |p.items| < |q.items| && !q.items[|p.items|].Label?
    decreases e, 1
  {
    hide EmitCmp, EmitList, Shaped;
    var op := Text(e.es[0]);
    if op == "not" {
      EmitShaped(p, e.es[1], lf, lt, syscall, c, q);
    } else if op == "and" || op == "or" {
      ListShaped(p, op, e.es[1..], lt, lf, syscall, c, q);
    } else if IsCmp(op) {
      if IsArg(e.es[1]) {
        CmpShaped(p, op, ArgNo(e.es[1]).value, e.es[2], lt, lf, syscall, c, q);
      } else {
        CmpShaped(p, Mirror(op), ArgNo(e.es[2]).value, e.es[1], lt, lf, syscall, c, q);
      }
    } else {
      PutPlain(p, Load(ArgLo(ArgNo(e).value)));
    }
  }

  lemma {:induction false} ListShaped(p: Prog, op: string, es: seq<Expr>, lt: string, lf: string, syscall: string,
                                      c: Context, q: Prog)
    requires es != [] && EmitList(p, op, es, lt, lf, syscall, c) == Ok(q) && Shaped(p.items)
    ensures Shaped(q.items) && EndsPlain(q.items) && |p.items| < |q.items| && !q.items[|p.items|].Label?
    decreases es, 0
  {
    hide Emit, LabelName, Shaped, EndsPlain;
    if |es| == 1 {
      EmitShaped(p, es[0], lt, lf, syscall, c, q);
    } else {
      var next := LabelName(op, p.labelId + 1);
      var tt, ff := if op == "and" then next else lt, if op == "and" then lf else next;
      var p1 := Emit(Fresh(p), es[0], tt, ff, syscall, c).value;
      FreshShaped(p);
      EmitShaped(Fresh(p), es[0], tt, ff, syscall, c, p1);
      PutNamed(p1, next);
      var p2 := PutLabel(p1, next).value;
      ListShaped(p2, op, es[1..], lt, lf, syscall, c, q);
      EmitListGrows(p2, op, es[1..], lt, lf, syscall, c);
    }
  }

  /** So no two labels share an instruction. */
  lemma ShapedApart(items: seq<Item>)
    requires Shaped(items)
    ensures LabelsApart(items)
  {
    forall i, j | 0 <= i < j < |items| && items[i].Label? && items[j].Label?
      ensures Pc(items, i) != Pc(items, j)
    {
      assert !items[i + 1].Label?;
      assert Pc(items, i + 2) == Pc(items, i) + 1;
      PcMonotone(items, i + 2, j);
    }
  }
}
