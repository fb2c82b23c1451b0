/** The compiler accepts a policy exactly if its syscalls are distinct, its conditions are
    conditions, the names made from it do not clash and no jump is longer than 255. */
module SeccompComplete {
  import opened Basics
  import opened SeccompSpec
  import opened SeccompCode
  import opened SeccompCompiler
  import opened SeccompCorrect
  import opened SeccompPolicy
  import opened SeccompLabels
  import opened SeccompAccept
  import opened SeccompReach

  // ----- what a policy must be ----------------------------------------------------------------------

  predicate Conditions(entries: seq<Entry>, c: Context) {
    forall i | 0 <= i < |entries| && entries[i].cond.Some? :: CondOk(entries[i].cond.value, entries[i].syscall, c)
  }

  /** The three label names made for a conditional syscall. */
  function NamesFor(syscall: string): set<string> {
    {"check_" + syscall, syscall + "_KILL", syscall + "_ALLOW"}
  }

  predicate NamesNew(used: set<string>, syscall: string) {
    && "check_" + syscall !in used && syscall + "_KILL" !in used && syscall + "_ALLOW" !in used
    && |NamesFor(syscall)| == 3
  }

  /** No name made from the policy is made twice, or is one in used. */
  predicate Clashless(used: set<string>, entries: seq<Entry>)
    decreases |entries|
  {
    entries != [] ==>
      if entries[0].cond == None then Clashless(used, entries[1..])
      else NamesNew(used, entries[0].syscall) && Clashless(used + NamesFor(entries[0].syscall), entries[1..])
  }

  /** Instructions of the checks of all entries. */
  function ChecksSize(entries: seq<Entry>, c: Context): nat
    decreases |entries|
  {
    if entries == [] then 0
    else
      ChecksSize(entries[1..], c)
      + match entries[0].cond case Some(e) => Size(e, entries[0].syscall, c) + 2 case None => 0
  }

  /** Instructions of the whole filter: the architecture test, one comparison for each
      entry, the two returns they share, and the checks. */
  function FilterSize(entries: seq<Entry>, c: Context): nat {
    |entries| + 5 + ChecksSize(entries, c)
  }

  /** No jump is too long: from the architecture test to the kill, from each conditional
      entry's comparison to its check, and inside each check. */
  predicate Fits(entries: seq<Entry>, c: Context) {
    && |entries| + 1 <= REACH
    && forall j | 0 <= j < |entries| && entries[j].cond.Some? ::
         && |entries| + 1 + ChecksSize(entries[..j], c) - j <= REACH
         && Reaches(entries[j].cond.value, 1, 0, entries[j].syscall, c)
  }

  // ----- labels -------------------------------------------------------------------------------------------

  lemma SizeThree(a: string, b: string, d: string)
    ensures |{a, b, d}| == 3 <==> a != b && a != d && b != d
  {
    if a == b { assert {a, b, d} == {a, d}; }
    if a == d { assert {a, b, d} == {a, b}; }
    if b == d { assert {a, b, d} == {a, b}; }
  }

  /** One check: its condition must be one and its names must be new. */
  lemma CheckAccepted(p: Prog, syscall: string, cond: Expr, c: Context, used: set<string>)
    requires Labelled(p, used) && Shaped(p.items) && EndsPlain(p.items)
    ensures var r := EmitCheck(p, syscall, cond, c);
      && (r.Ok? <==> CondOk(cond, syscall, c) && NamesNew(used, syscall))
      && (r.Ok? ==> Labelled(r.value, used + NamesFor(syscall)) && Shaped(r.value.items) && EndsPlain(r.value.items))
  {
    hide Labelled, Emit, CondOk, Shaped, EndsPlain, PutLabel, Ungenerated;
    var check, kill, allow := "check_" + syscall, syscall + "_KILL", syscall + "_ALLOW";
    SizeThree(check, kill, allow);
    PolicyNames(syscall);
    NameAccepted(p, check, used);
    if check !in used {
      var p1 := PutLabel(p, check).value;
      EmitAccepted(p1, cond, allow, kill, syscall, c, used + {check});
      if CondOk(cond, syscall, c) {
        var p2 := Emit(p1, cond, allow, kill, syscall, c).value;
        EmitShaped(p1, cond, allow, kill, syscall, c, p2);
        LabelledOn(p1, p2, used + {check});
        NameAccepted(p2, kill, used + {check});
        if kill !in used + {check} {
          var p3 := PutLabel(p2, kill).value;
          RetAccepted(p3, false, used + {check} + {kill});
          NameAccepted(Put(p3, Ret(false)), allow, used + {check} + {kill});
          if allow !in used + {check} + {kill} {
            var p4 := PutLabel(Put(p3, Ret(false)), allow).value;
            RetAccepted(p4, true, used + {check} + {kill} + {allow});
            assert used + {check} + {kill} + {allow} == used + NamesFor(syscall);
          }
        }
      }
    }
  }

  lemma NameAccepted(p: Prog, name: string, used: set<string>)
    requires Labelled(p, used) && Ungenerated(name) && Shaped(p.items) && EndsPlain(p.items)
    ensures PutLabel(p, name).Ok? <==> name !in used
    ensures name !in used ==> Labelled(PutLabel(p, name).value, used + {name}) && Shaped(PutLabel(p, name).value.items)
  {
    hide Labelled, Ungenerated, Shaped, EndsPlain;
    LabelledName(p, name, used);
    if name !in used { PutNamed(p, name); }
  }

  lemma RetAccepted(p: Prog, allow: bool, used: set<string>)
    requires Labelled(p, used) && Shaped(p.items)
    ensures var q := Put(p, Ret(allow)); Labelled(q, used) && Shaped(q.items) && EndsPlain(q.items)
  {
    hide Labelled, Shaped, EndsPlain;
    RetAdded(p, allow);
    LabelledOn(p, Put(p, Ret(allow)), used);
    PutPlain(p, Ret(allow));
  }

  lemma RetAdded(p: Prog, allow: bool)
    ensures Added(p, Put(p, Ret(allow)))
  {
  }

  /** All checks. */
  lemma {:induction false} ChecksAccepted(p: Prog, entries: seq<Entry>, c: Context, used: set<string>)
    requires Labelled(p, used) && Shaped(p.items) && EndsPlain(p.items)
    ensures var r := EmitChecks(p, entries, c);
      && (r.Ok? <==> Conditions(entries, c) && Clashless(used, entries))
      && (r.Ok? ==> Shaped(r.value.items))
    decreases |entries|
  {
    hide Labelled, EmitCheck, CondOk, Shaped, EndsPlain, NamesNew;
    if entries != [] {
      ConditionsStep(entries, c);
      if entries[0].cond == None {
        ChecksAccepted(p, entries[1..], c, used);
      } else {
        var e := entries[0];
        CheckAccepted(p, e.syscall, e.cond.value, c, used);
        if CondOk(e.cond.value, e.syscall, c) && NamesNew(used, e.syscall) {
          ChecksAccepted(EmitCheck(p, e.syscall, e.cond.value, c).value, entries[1..], c, used + NamesFor(e.syscall));
        }
      }
    }
  }

  lemma ConditionsStep(entries: seq<Entry>, c: Context)
    requires entries != []
    ensures Conditions(entries, c) <==>
      && (entries[0].cond.Some? ==> CondOk(entries[0].cond.value, entries[0].syscall, c)) && Conditions(entries[1..], c)
  {
    hide CondOk;
    assert forall i | 1 <= i < |entries| :: entries[i] == entries[1..][i - 1];
  }

  // ----- jumps ----------------------------------------------------------------------------------------------

  /** A label and the return after it: one instruction, which always encodes. */
  lemma LabelledEncodes(items: seq<Item>, i: nat)
    requires i + 2 <= |items| && items[i].Label? && items[i + 1].Ret?
    ensures Pc(items, i + 2) == Pc(items, i + 1) + 1 == Pc(items, i) + 1 && Encodes(items, i, i + 2)
  {
  }

  /** The parts of one check: its label, the condition's code from p1 to p2, and the two
      returns behind it. */
  lemma CheckShape(p: Prog, syscall: string, cond: Expr, c: Context, q: Prog, items: seq<Item>)
    returns (p1: Prog, p2: Prog)
    requires EmitCheck(p, syscall, cond, c) == Ok(q) && q.items <= items
    ensures |p1.items| == |p.items| + 1 <= |p2.items| == |q.items| - 4 && p2.items <= items
    ensures Emit(p1, cond, syscall + "_ALLOW", syscall + "_KILL", syscall, c) == Ok(p2)
    ensures Find(items, "check_" + syscall) == |p.items| && Find(items, syscall + "_KILL") == |p2.items|
    ensures Find(items, syscall + "_ALLOW") == |p2.items| + 2
    ensures items[|p2.items| + 1].Ret? && items[|p2.items| + 3].Ret?
  {
    hide Find, Emit;
    var allow, kill := syscall + "_ALLOW", syscall + "_KILL";
    p1 := PutLabel(p, "check_" + syscall).value;
    p2 := Emit(p1, cond, allow, kill, syscall, c).value;
    var p3 := Put(PutLabel(p2, kill).value, Ret(false));
    var p4 := Put(PutLabel(p3, allow).value, Ret(true));
    EmitGrows(p1, cond, allow, kill, syscall, c);
    assert p1.items <= p2.items <= p3.items <= p4.items && p4 == q;
    LabelFound(p, "check_" + syscall, items);
    LabelFound(p2, kill, items);
    LabelFound(p3, allow, items);
  }

  /** One check: where it lies, how long it is and when its jumps encode. */
  lemma CheckEncodes(p: Prog, syscall: string, cond: Expr, c: Context, q: Prog, items: seq<Item>)
    requires EmitCheck(p, syscall, cond, c) == Ok(q) && q.items <= items
    ensures |p.items| < |q.items| && Find(items, "check_" + syscall) == |p.items|
    ensures Pc(items, |q.items|) == Pc(items, |p.items|) + Size(cond, syscall, c) + 2
    ensures Encodes(items, |p.items|, |q.items|) <==> Reaches(cond, 1, 0, syscall, c)
  {
    hide EmitCheck, Emit, Pc, Dist, Ahead, Encodes, Size, Reaches;
    var p1, p2 := CheckShape(p, syscall, cond, c, q, items);
    var i, m := |p.items|, |p2.items|;
    LabelPasses(items, i);
    LabelledEncodes(items, m);
    LabelledEncodes(items, m + 2);
    LabelIsHere(items, m, syscall + "_KILL");
    LabelIsHere(items, m + 2, syscall + "_ALLOW");
    AheadOf(items, m, m + 2, syscall + "_ALLOW");
    EmitEncodes(p1, cond, syscall + "_ALLOW", syscall + "_KILL", syscall, c, p2, items);
    EncodesJoin(items, i, i + 1, m);
    EncodesJoin(items, i, m, m + 2);
    EncodesJoin(items, i, m + 2, m + 4);
  }

  predicate AllReach(entries: seq<Entry>, c: Context) {
    forall j | 0 <= j < |entries| && entries[j].cond.Some? ::
      Reaches(entries[j].cond.value, 1, 0, entries[j].syscall, c)
  }

  lemma AllReachStep(entries: seq<Entry>, c: Context)
    requires entries != []
    ensures AllReach(entries, c) <==>
      && (entries[0].cond.Some? ==> Reaches(entries[0].cond.value, 1, 0, entries[0].syscall, c))
      && AllReach(entries[1..], c)
  {
    hide Reaches;
    assert forall i | 1 <= i < |entries| :: entries[i] == entries[1..][i - 1];
  }

  /** All checks: how long they are and when their jumps encode. */
  lemma {:induction false} ChecksEncode(p: Prog, entries: seq<Entry>, c: Context, q: Prog, items: seq<Item>)
    requires EmitChecks(p, entries, c) == Ok(q) && q.items <= items
    ensures |p.items| <= |q.items|
    ensures Pc(items, |q.items|) == Pc(items, |p.items|) + ChecksSize(entries, c)
    ensures Encodes(items, |p.items|, |q.items|) <==> AllReach(entries, c)
    decreases |entries|
  {
    hide Find, EmitCheck, Pc, Encodes, Size, Reaches, AllReach;
    if entries == [] {
      NoneEncodes(items, |p.items|, c);
    } else {
      AllReachStep(entries, c);
      if entries[0].cond == None {
        ChecksEncode(p, entries[1..], c, q, items);
      } else {
        var e := entries[0];
        var p1 := EmitCheck(p, e.syscall, e.cond.value, c).value;
        ChecksGrow(p1, entries[1..], c);
        CheckEncodes(p, e.syscall, e.cond.value, c, p1, items);
        ChecksEncode(p1, entries[1..], c, q, items);
        EncodesJoin(items, |p.items|, |p1.items|, |q.items|);
      }
    }
  }

  lemma NoneEncodes(items: seq<Item>, i: nat, c: Context)
    requires i <= |items|
    ensures Encodes(items, i, i) && AllReach([], c)
  {
  }

  /** Where the check of entry k lies. */
  lemma {:induction false} CheckLies(p: Prog, entries: seq<Entry>, c: Context, q: Prog, items: seq<Item>, k: nat)
    requires EmitChecks(p, entries, c) == Ok(q) && q.items <= items
    requires k < |entries| && entries[k].cond.Some?
    ensures var i := Find(items, "check_" + entries[k].syscall);
      |p.items| <= i < |items| && Pc(items, i) == Pc(items, |p.items|) + ChecksSize(entries[..k], c)
    decreases |entries|
  {
    hide Find, EmitCheck, Pc, Encodes, Size, Reaches;
    assert k > 0 ==> entries[..k][0] == entries[0] && entries[..k][1..] == entries[1..][..k - 1];
    if entries[0].cond == None {
      CheckLies(p, entries[1..], c, q, items, k - 1);
    } else {
      var e := entries[0];
      var p1 := EmitCheck(p, e.syscall, e.cond.value, c).value;
      ChecksGrow(p1, entries[1..], c);
      CheckEncodes(p, e.syscall, e.cond.value, c, p1, items);
      if k > 0 { CheckLies(p1, entries[1..], c, q, items, k - 1); }
    }
  }

  // ----- the dispatch -----------------------------------------------------------------------------------------

  /** The first part of the program: the dispatch and the two returns it shares. */
  predicate Headed(items: seq<Item>, entries: seq<Entry>) {
    var n := |entries|;
    && |items| >= n + 7
    && items[0] == Load(Arch) && items[1] == Jump(Jeq, ArchNr, Next, To(KILL)) && items[2] == Load(Nr)
    && (forall j | 0 <= j < n :: items[j + 3] == Dispatch(entries[j]))
    && Find(items, KILL) == n + 3 && items[n + 4].Ret? && Find(items, ALLOW) == n + 5 && items[n + 6].Ret?
  }

  /** The checks lie behind it, one after the other. */
  predicate Followed(items: seq<Item>, entries: seq<Entry>, c: Context) {
    forall j | 0 <= j < |entries| && entries[j].cond.Some? :: CheckAt(items, entries, c, j)
  }

  predicate CheckAt(items: seq<Item>, entries: seq<Entry>, c: Context, j: nat)
    requires j < |entries|
  {
    var i := Find(items, "check_" + entries[j].syscall);
    i < |items| && Pc(items, i) == |entries| + 5 + ChecksSize(entries[..j], c)
  }

  lemma {:induction false} HeadPc(items: seq<Item>, entries: seq<Entry>, i: nat)
    requires Headed(items, entries) && i <= |entries| + 3
    ensures Pc(items, i) == i
  {
    if i > 0 {
      HeadPc(items, entries, i - 1);
      assert i > 3 ==> items[(i - 4) + 3] == Dispatch(entries[i - 4]);
    }
  }

  lemma ReturnsPc(items: seq<Item>, entries: seq<Entry>)
    requires Headed(items, entries)
    ensures Pc(items, |entries| + 5) == |entries| + 4 && Pc(items, |entries| + 7) == |entries| + 5
    ensures Encodes(items, |entries| + 3, |entries| + 7)
  {
    hide Headed, Encodes, Pc;
    HeadPc(items, entries, |entries| + 3);
    HeadReturns(items, entries);
    LabelledEncodes(items, |entries| + 3);
    LabelledEncodes(items, |entries| + 5);
    EncodesJoin(items, |entries| + 3, |entries| + 5, |entries| + 7);
  }

  lemma HeadReturns(items: seq<Item>, entries: seq<Entry>)
    requires Headed(items, entries)
    ensures |items| >= |entries| + 7 && items[|entries| + 3].Label? && items[|entries| + 4].Ret?
    ensures items[|entries| + 5].Label? && items[|entries| + 6].Ret?
  {
  }

  lemma ArchEncodes(items: seq<Item>, entries: seq<Entry>)
    requires Headed(items, entries)
    ensures Encode(items, 1).Ok? <==> |entries| + 1 <= REACH
    ensures Encodes(items, 0, 3) <==> |entries| + 1 <= REACH
  {
    hide Pc;
    HeadPc(items, entries, 1);
    HeadPc(items, entries, |entries| + 3);
  }

  /** The comparison for entry j: 255 is enough for its jump. */
  predicate DispatchFits(entries: seq<Entry>, c: Context, j: nat)
    requires j < |entries|
  {
    if entries[j].cond.None? then |entries| - j <= REACH
    else |entries| + 1 + ChecksSize(entries[..j], c) - j <= REACH
  }

  lemma DispatchEncodes(items: seq<Item>, entries: seq<Entry>, c: Context, j: nat)
    requires Headed(items, entries) && Followed(items, entries, c) && j < |entries|
    ensures !items[j + 3].Label? && (Encode(items, j + 3).Ok? <==> DispatchFits(entries, c, j))
  {
    hide Pc, ChecksSize, Encodes;
    HeadPc(items, entries, j + 3);
    ReturnsPc(items, entries);
    assert items[j + 3] == Dispatch(entries[j]);
    if entries[j].cond.Some? { assert CheckAt(items, entries, c, j); }
  }

  lemma HeadEncodes(items: seq<Item>, entries: seq<Entry>, c: Context)
    requires Headed(items, entries) && Followed(items, entries, c)
    ensures Encodes(items, 0, |entries| + 7) <==>
      |entries| + 1 <= REACH && forall j | 0 <= j < |entries| :: DispatchFits(entries, c, j)
  {
    hide Headed, Followed, DispatchFits, Encode;
    HeadReturns(items, entries);
    ArchEncodes(items, entries);
    ReturnsPc(items, entries);
    EncodesJoin(items, 0, 3, |entries| + 3);
    EncodesJoin(items, 0, |entries| + 3, |entries| + 7);
    forall i | 3 <= i < |entries| + 3
      ensures !items[i].Label? && (Encode(items, i).Ok? <==> DispatchFits(entries, c, i - 3))
    {
      DispatchEncodes(items, entries, c, i - 3);
    }
    if Encodes(items, 3, |entries| + 3) {
      forall j | 0 <= j < |entries| ensures DispatchFits(entries, c, j) {
        assert Encode(items, j + 3).Ok?;
      }
    }
  }

  // ----- the theorem ----------------------------------------------------------------------------------------------

  /** The program before the checks. */
  function Head(entries: seq<Entry>): Prog {
    Prog(Prologue(entries) + [Label(KILL), Ret(false), Label(ALLOW), Ret(true)], 0)
  }

  lemma HeadAccepted(entries: seq<Entry>)
    ensures var p1 := Prog(Prologue(entries), 0);
      && PutLabel(p1, KILL).Ok? && PutLabel(Put(PutLabel(p1, KILL).value, Ret(false)), ALLOW).Ok?
      && Put(PutLabel(Put(PutLabel(p1, KILL).value, Ret(false)), ALLOW).value, Ret(true)) == Head(entries)
    ensures Labelled(Head(entries), {KILL, ALLOW}) && Shaped(Head(entries).items) && EndsPlain(Head(entries).items)
  {
    hide Labelled, Shaped, EndsPlain, Ungenerated;
    var p1 := Prog(Prologue(entries), 0);
    PrologueAccepted(entries);
    NameAccepted(p1, KILL, {});
    var p2 := PutLabel(p1, KILL).value;
    assert {} + {KILL} == {KILL};
    RetAccepted(p2, false, {KILL});
    NameAccepted(Put(p2, Ret(false)), ALLOW, {KILL});
    assert {KILL} + {ALLOW} == {KILL, ALLOW};
    var p3 := PutLabel(Put(p2, Ret(false)), ALLOW).value;
    RetAccepted(p3, true, {KILL, ALLOW});
    assert Put(p3, Ret(true)) == Head(entries);
  }

  lemma PrologueStart(entries: seq<Entry>)
    ensures var items := Prologue(entries);
      items[0] == Load(Arch) && items[1] == Jump(Jeq, ArchNr, Next, To(KILL)) && items[2] == Load(Nr)
  {
  }

  lemma PrologueAccepted(entries: seq<Entry>)
    ensures var p := Prog(Prologue(entries), 0); Labelled(p, {}) && Shaped(p.items) && EndsPlain(p.items)
    ensures Ungenerated(KILL) && Ungenerated(ALLOW)
  {
    PolicyNames("");
    var items := Prologue(entries);
    assert forall i | 0 <= i < |items| :: !items[i].Label? by {
      hide Prologue;
      PrologueSize(entries);
      PrologueStart(entries);
      forall i | 3 <= i < |items| ensures !items[i].Label? {
        assert items[(i - 3) + 3] == Dispatch(entries[i - 3]);
      }
    }
    PlainAccepted(items);
  }

  lemma PlainAccepted(items: seq<Item>)
    requires items != [] && forall i | 0 <= i < |items| :: !items[i].Label?
    ensures Labelled(Prog(items, 0), {}) && Shaped(items) && EndsPlain(items)
  {
  }

  /** The program after the checks has its head and its checks in place. */
  lemma CheckedHead(entries: seq<Entry>, c: Context, q: Prog)
    requires EmitChecks(Head(entries), entries, c) == Ok(q)
    ensures Headed(q.items, entries) && Followed(q.items, entries, c) && |Head(entries).items| == |entries| + 7
  {
    hide EmitChecks, Find, Prologue, Pc, Dispatch, Encodes;
    var p := Head(entries);
    HeadAccepted(entries);
    ChecksGrow(p, entries, c);
    var items := q.items;
    PrologueSize(entries);
    PrologueStart(entries);
    assert forall i | 0 <= i < |p.items| :: items[i] == p.items[i];
    var p1 := Prog(Prologue(entries), 0);
    var p2 := Put(PutLabel(p1, KILL).value, Ret(false));
    LabelFound(p1, KILL, items);
    LabelFound(p2, ALLOW, items);
    assert Headed(items, entries);
    ReturnsPc(items, entries);
    forall j | 0 <= j < |entries| && entries[j].cond.Some? ensures CheckAt(items, entries, c, j) {
      CheckLies(p, entries, c, q, items, j);
    }
  }

  lemma FitsParts(entries: seq<Entry>, c: Context)
    ensures Fits(entries, c) <==>
      && |entries| + 1 <= REACH && (forall j | 0 <= j < |entries| :: DispatchFits(entries, c, j))
      && AllReach(entries, c)
  {
    hide Reaches, ChecksSize;
    if |entries| + 1 <= REACH && (forall j | 0 <= j < |entries| :: DispatchFits(entries, c, j)) {
      assert forall j | 0 <= j < |entries| && entries[j].cond.Some? :: DispatchFits(entries, c, j);
    }
  }

  /** The program after the checks can be encoded exactly if its jumps fit. */
  lemma CheckedEncodes(entries: seq<Entry>, c: Context, q: Prog)
    requires EmitChecks(Head(entries), entries, c) == Ok(q) && Shaped(q.items)
    ensures Resolve(q.items).Ok? <==> Fits(entries, c)
    ensures InstructionCount(q.items) == FilterSize(entries, c)
  {
    hide EmitChecks, Fits, DispatchFits, AllReach, Headed, Followed, Encodes, Pc, Shaped, Reaches, ChecksSize;
    hide LabelsApart, EncodeAll, Head;
    FitsParts(entries, c);
    CheckedHead(entries, c, q);
    ShapedApart(q.items);
    EncodeAllIff(q.items, |q.items|);
    HeadEncodes(q.items, entries, c);
    ReturnsPc(q.items, entries);
    ChecksEncode(Head(entries), entries, c, q, q.items);
    EncodesJoin(q.items, 0, |entries| + 7, |q.items|);
  }

  /** The compiler accepts a policy exactly if its syscalls are distinct, its conditions are
      conditions, its names do not clash and its jumps fit; the filter then has the size
      read off the policy. */
  lemma CompileAccepts(entries: seq<Entry>, c: Context)
    ensures Compile(entries, c).Ok? <==>
      Distinct(entries) && Conditions(entries, c) && Clashless({KILL, ALLOW}, entries) && Fits(entries, c)
    ensures Compile(entries, c).Ok? ==> InstructionCount(Compile(entries, c).value) == FilterSize(entries, c)
  {
    hide EmitChecks, Distinct, Conditions, Clashless, Fits, Labelled, Shaped, EndsPlain, Resolve, Prologue;
    hide FilterSize, InstructionCount, Head;
    HeadAccepted(entries);
    ChecksAccepted(Head(entries), entries, c, {KILL, ALLOW});
    if EmitChecks(Head(entries), entries, c).Ok? {
      CheckedEncodes(entries, c, EmitChecks(Head(entries), entries, c).value);
    }
  }

  // ----- policies that are accepted ---------------------------------------------------------------------------

  /** A condition whose code and what follows up to its labels is short enough. */
  lemma {:induction false} SmallReaches(e: Expr, dt: nat, df: nat, syscall: string, c: Context)
    requires Size(e, syscall, c) + dt <= REACH + 1 && Size(e, syscall, c) + df <= REACH + 1
    ensures Reaches(e, dt, df, syscall, c)
    decreases e, 1
  {
    hide Narrow, ListReaches;
    if e.List? && e.es != [] {
      var op := Text(e.es[0]);
      if op == "not" && |e.es| == 2 {
        SmallReaches(e.es[1], df, dt, syscall, c);
      } else if (op == "and" || op == "or") && |e.es| >= 2 {
        SmallListReaches(op, e.es[1..], dt, df, syscall, c);
      }
    }
  }

  lemma {:induction false} SmallListReaches(op: string, es: seq<Expr>, dt: nat, df: nat, syscall: string, c: Context)
    requires Sizes(es, syscall, c) + dt <= REACH + 1 && Sizes(es, syscall, c) + df <= REACH + 1 && es != []
    ensures ListReaches(op, es, dt, df, syscall, c)
    decreases es, 0
  {
    hide Reaches, Size;
    if |es| == 1 {
      SmallReaches(es[0], dt, df, syscall, c);
    } else {
      var rest := Sizes(es[1..], syscall, c);
      var tt, ff := if op == "and" then 0 else rest + dt, if op == "and" then rest + df else 0;
      assert Size(es[0], syscall, c) + rest == Sizes(es, syscall, c);
      SmallReaches(es[0], tt, ff, syscall, c);
      SmallListReaches(op, es[1..], dt, df, syscall, c);
    }
  }

  /** The checks before entry j, and its own, are no longer than all of them. */
  lemma {:induction false} ChecksSplit(entries: seq<Entry>, c: Context, j: nat)
    requires j < |entries| && entries[j].cond.Some?
    ensures ChecksSize(entries[..j], c) + Size(entries[j].cond.value, entries[j].syscall, c) + 2
         <= ChecksSize(entries, c)
    decreases |entries|
  {
    hide Size;
    if j > 0 {
      ChecksSplit(entries[1..], c, j - 1);
      assert entries[..j][1..] == entries[1..][..j - 1];
    }
  }

  /** A filter of at most 256 instructions has no jump that is too long. */
  lemma SmallFits(entries: seq<Entry>, c: Context)
    requires FilterSize(entries, c) <= REACH + 1
    ensures Fits(entries, c)
  {
    hide Size, Reaches, ChecksSize;
    forall j | 0 <= j < |entries| && entries[j].cond.Some?
      ensures |entries| + 1 + ChecksSize(entries[..j], c) - j <= REACH
      ensures Reaches(entries[j].cond.value, 1, 0, entries[j].syscall, c)
    {
      ChecksSplit(entries, c, j);
      SmallReaches(entries[j].cond.value, 1, 0, entries[j].syscall, c);
    }
  }

  /** No syscall is named RET, and no syscall's name starts with check. */
  predicate PlainNames(entries: seq<Entry>) {
    forall i | 0 <= i < |entries| :: entries[i].syscall != "RET" && !("check" <= entries[i].syscall)
  }

  lemma CheckDiffers(s: string, t: string, suffix: string)
    requires !("check" <= t) && suffix != [] && suffix[0] == '_'
    ensures "check_" + s != t + suffix
  {
    var x, y := "check_" + s, t + suffix;
    if |t| < 5 {
      assert y[|t|] == '_' && x[|t|] == "check"[|t|];
    } else {
      assert y[..5] == t[..5] != "check" == x[..5];
    }
  }

  lemma SuffixKept(s: string, t: string, suffix: string)
    requires s + suffix == t + suffix
    ensures s == t
  {
    assert s == (s + suffix)[..|s|] && t == (t + suffix)[..|t|];
  }

  lemma LastDiffers(s: string, t: string)
    ensures s + "_KILL" != t + "_ALLOW" && s + "_KILL" !in {KILL, ALLOW} && "check_" + s !in {KILL, ALLOW}
    ensures s + "_ALLOW" !in {KILL, ALLOW} <==> s != "RET"
  {
    var k, a, x := s + "_KILL", s + "_ALLOW", t + "_ALLOW";
    assert k[|k| - 1] == 'L' && a[|a| - 1] == 'W' && x[|x| - 1] == 'W';
    assert KILL[|KILL| - 1] == 'S' && ALLOW[|ALLOW| - 1] == 'W' && KILL[0] == 'R' && ALLOW[0] == 'R';
    assert ("check_" + s)[0] == 'c' && "RET" + "_ALLOW" == ALLOW;
    if a == ALLOW { SuffixKept(s, "RET", "_ALLOW"); }
  }

  /** Names made from different syscalls, neither of which starts with check, differ. */
  lemma NamesDiffer(s: string, t: string)
    requires !("check" <= s) && !("check" <= t)
    ensures s != t ==> NamesFor(s) !! NamesFor(t)
    ensures |NamesFor(s)| == 3
  {
    forall x, y | x in {s, t} && y in {s, t}
      ensures "check_" + x != y + "_KILL" && "check_" + x != y + "_ALLOW" && x + "_KILL" != y + "_ALLOW"
    {
      CheckDiffers(x, y, "_KILL");
      CheckDiffers(x, y, "_ALLOW");
      LastDiffers(x, y);
    }
    SizeThree("check_" + s, s + "_KILL", s + "_ALLOW");
    if s != t {
      assert ("check_" + s)[6..] == s && ("check_" + t)[6..] == t;
      if s + "_KILL" == t + "_KILL" { SuffixKept(s, t, "_KILL"); }
      if s + "_ALLOW" == t + "_ALLOW" { SuffixKept(s, t, "_ALLOW"); }
    }
  }

  /** Distinct syscalls with plain names make no name twice. */
  lemma {:induction false} PlainClashless(entries: seq<Entry>, used: set<string>)
    requires Distinct(entries) && PlainNames(entries)
    requires forall i | 0 <= i < |entries| :: used !! NamesFor(entries[i].syscall)
    ensures Clashless(used, entries)
    decreases |entries|
  {
    hide NamesFor;
    if entries != [] {
      var s := entries[0].syscall;
      assert forall i | 0 <= i < |entries| - 1 :: entries[1..][i] == entries[i + 1];
      NewNames(used, s);
      forall i | 0 <= i < |entries| - 1 ensures used + NamesFor(s) !! NamesFor(entries[1..][i].syscall) {
        NamesDiffer(s, entries[i + 1].syscall);
      }
      PlainClashless(entries[1..], if entries[0].cond == None then used else used + NamesFor(s));
    }
  }

  lemma NewNames(used: set<string>, s: string)
    requires used !! NamesFor(s) && !("check" <= s)
    ensures NamesNew(used, s)
  {
    NamesDiffer(s, s);
    assert {"check_" + s, s + "_KILL", s + "_ALLOW"} <= NamesFor(s);
  }

  /** Distinct syscalls with plain names, conditions that are conditions and at most 256
      instructions are enough. */
  lemma PlainAccepts(entries: seq<Entry>, c: Context)
    requires Distinct(entries) && PlainNames(entries) && Conditions(entries, c) && FilterSize(entries, c) <= REACH + 1
    ensures Compile(entries, c).Ok?
  {
    hide Compile, Clashless, Fits, Conditions, FilterSize, NamesFor;
    CompileAccepts(entries, c);
    forall i | 0 <= i < |entries| ensures {KILL, ALLOW} !! NamesFor(entries[i].syscall) {
      Unreserved(entries[i].syscall);
    }
    PlainClashless(entries, {KILL, ALLOW});
    SmallFits(entries, c);
  }

  lemma Unreserved(s: string)
    requires s != "RET" && !("check" <= s)
    ensures {KILL, ALLOW} !! NamesFor(s)
  {
    LastDiffers(s, s);
  }

  /** A policy without conditions is accepted exactly if it names each syscall once and at
      most 254 of them. */
  lemma UnconditionalAccepts(entries: seq<Entry>, c: Context)
    requires forall i | 0 <= i < |entries| :: entries[i].cond == None
    ensures Compile(entries, c).Ok? <==> Distinct(entries) && |entries| < REACH
  {
    hide Compile, Distinct;
    CompileAccepts(entries, c);
    NoneClash(entries, {KILL, ALLOW});
  }

  lemma {:induction false} NoneClash(entries: seq<Entry>, used: set<string>)
    requires forall i | 0 <= i < |entries| :: entries[i].cond == None
    ensures Clashless(used, entries)
    decreases |entries|
  {
    if entries != [] { NoneClash(entries[1..], used); }
  }
}
