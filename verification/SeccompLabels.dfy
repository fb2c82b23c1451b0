/** The names of labels: generated ones never repeat and are never names made from a
    policy. */
module SeccompLabels {
  import opened SeccompCode
  import opened SeccompCompiler

  const PREFIXES: set<string> := {"and", "or", "arg_hi_eq", "arg_cmp", "arg_cmp_eq"}

  predicate IsDigit(ch: char) { '0' <= ch <= '9' }

  lemma {:induction false} DigitsShape(n: nat)
    ensures Digits(n) != [] && forall i | 0 <= i < |Digits(n)| :: IsDigit(Digits(n)[i])
  {
    if n >= 10 { DigitsShape(n / 10); }
  }

  lemma {:induction false} DigitsInjective(a: nat, b: nat)
    requires Digits(a) == Digits(b)
    ensures a == b
  {
    var d, e := ['0' + (a % 10) as char], ['0' + (b % 10) as char];
    if a < 10 && b < 10 {
      assert d == e && d[0] == e[0];
    } else if a >= 10 && b >= 10 {
      assert Digits(a)[..|Digits(a)| - 1] == Digits(a / 10) && Digits(b)[..|Digits(b)| - 1] == Digits(b / 10);
      assert Digits(a)[|Digits(a)| - 1] == d[0] && Digits(b)[|Digits(b)| - 1] == e[0];
      DigitsInjective(a / 10, b / 10);
    } else {
      DigitsShape(a / 10);
      DigitsShape(b / 10);
    }
  }

  /** What follows the last underscore of a generated name is its number. */
  lemma NumberUnique(p: string, d: string, q: string, e: string)
    requires p + "_" + d == q + "_" + e
    requires (forall i | 0 <= i < |d| :: IsDigit(d[i])) && (forall i | 0 <= i < |e| :: IsDigit(e[i]))
    ensures d == e
  {
    var s := p + "_" + d;
    var t := q + "_" + e;
    assert s[|p|] == '_' && t[|q|] == '_';
    assert |p| == |q| ==> s[|p| + 1..] == d && t[|q| + 1..] == e;
  }

  lemma NamesApart(p: string, i: nat, q: string, j: nat)
    requires LabelName(p, i) == LabelName(q, j)
    ensures i == j
  {
    DigitsShape(i);
    DigitsShape(j);
    NumberUnique(p, Digits(i), q, Digits(j));
    DigitsInjective(i, j);
  }

  /** No generated name. */
  ghost predicate Ungenerated(name: string) {
    forall p, i: nat | p in PREFIXES :: name != LabelName(p, i)
  }

  lemma GeneratedShape(p: string, i: nat)
    requires p in PREFIXES
    ensures var s := LabelName(p, i); |s| > 0 && (s[0] == 'a' || s[0] == 'o') && IsDigit(s[|s| - 1])
  {
    DigitsShape(i);
    var s := LabelName(p, i);
    assert s[0] == p[0] && s[|s| - 1] == Digits(i)[|Digits(i)| - 1];
  }

  /** The names made from a policy. */
  lemma PolicyNames(syscall: string)
    ensures Ungenerated("check_" + syscall) && Ungenerated(syscall + "_KILL") && Ungenerated(syscall + "_ALLOW")
    ensures Ungenerated(KILL) && Ungenerated(ALLOW)
  {
    forall p, i: nat | p in PREFIXES
      ensures "check_" + syscall != LabelName(p, i) && syscall + "_KILL" != LabelName(p, i)
      ensures syscall + "_ALLOW" != LabelName(p, i) && KILL != LabelName(p, i) && ALLOW != LabelName(p, i)
    {
      hide LabelName;
      GeneratedShape(p, i);
      var k, a := syscall + "_KILL", syscall + "_ALLOW";
      assert ("check_" + syscall)[0] == 'c' && k[|k| - 1] == 'L' && a[|a| - 1] == 'W';
      assert KILL[|KILL| - 1] == 'S' && ALLOW[|ALLOW| - 1] == 'W';
    }
  }

  // ----- which labels a program has --------------------------------------------------------------------

  /** A generated name with a number up to n. */
  ghost predicate Numbered(name: string, n: nat) {
    exists p, i: nat :: p in PREFIXES && i <= n && name == LabelName(p, i)
  }

  /** The labels of a program are the names in used and generated ones up to its counter. */
  ghost predicate Labelled(p: Prog, used: set<string>) {
    && (forall name | name in used :: Label(name) in p.items && Ungenerated(name))
    && (forall name | Label(name) in p.items :: name in used || Numbered(name, p.labelId))
  }

  /** The next generated name is new. */
  lemma NextIsNew(p: Prog, used: set<string>, prefix: string, id: nat)
    requires Labelled(p, used) && prefix in PREFIXES && p.labelId < id
    ensures Label(LabelName(prefix, id)) !in p.items
  {
    hide LabelName;
    var name := LabelName(prefix, id);
    if Label(name) in p.items {
      assert name !in used;
      var q, i: nat :| q in PREFIXES && i <= p.labelId && name == LabelName(q, i);
      NamesApart(prefix, id, q, i);
    }
  }

  /** A generated name with a number in (lo, hi]. */
  ghost predicate Within(name: string, lo: nat, hi: nat) {
    exists p, i: nat :: p in PREFIXES && lo < i <= hi && name == LabelName(p, i)
  }

  /** q goes on from p, with labels numbered on from p's counter. */
  ghost predicate Added(p: Prog, q: Prog) {
    && p.items <= q.items && p.labelId <= q.labelId
    && forall i | |p.items| <= i < |q.items| && q.items[i].Label? :: Within(q.items[i].name, p.labelId, q.labelId)
  }

  lemma IsWithin(prefix: string, id: nat, lo: nat, hi: nat)
    requires prefix in PREFIXES && lo < id <= hi
    ensures Within(LabelName(prefix, id), lo, hi)
  {
  }

  lemma AddedOn(p: Prog, q: Prog, r: Prog)
    requires Added(p, q) && Added(q, r)
    ensures Added(p, r)
  {
    hide LabelName;
    forall i | |p.items| <= i < |r.items| && r.items[i].Label?
      ensures Within(r.items[i].name, p.labelId, r.labelId)
    {
      if i < |q.items| { assert q.items[i] == r.items[i]; }
    }
  }

  lemma LabelledOn(p: Prog, q: Prog, used: set<string>)
    requires Labelled(p, used) && Added(p, q)
    ensures Labelled(q, used)
  {
    hide LabelName;
    forall name | name in used
      ensures Label(name) in q.items
    {
      var i :| 0 <= i < |p.items| && p.items[i] == Label(name);
      assert q.items[i] == Label(name);
    }
    forall name | Label(name) in q.items
      ensures name in used || Numbered(name, q.labelId)
    {
      var i :| 0 <= i < |q.items| && q.items[i] == Label(name);
      if i < |p.items| {
        assert p.items[i] == Label(name);
      }
    }
  }

  /** A number kept back while other labels were added is still new. */
  lemma KeptBackIsNew(p: Prog, q: Prog, used: set<string>, prefix: string)
    requires Labelled(p, used) && prefix in PREFIXES && Added(Fresh(p), q)
    ensures Label(LabelName(prefix, p.labelId + 1)) !in q.items
  {
    hide LabelName;
    var name := LabelName(prefix, p.labelId + 1);
    NextIsNew(p, used, prefix, p.labelId + 1);
    forall i | 0 <= i < |q.items|
      ensures q.items[i] != Label(name)
    {
      if i < |p.items| {
        assert q.items[i] == p.items[i];
      } else if q.items[i].Label? {
        var r, j: nat :| r in PREFIXES && p.labelId + 1 < j <= q.labelId && q.items[i].name == LabelName(r, j);
        if q.items[i].name == name { NamesApart(prefix, p.labelId + 1, r, j); }
      }
    }
  }

  /** Adding a name made from the policy. */
  lemma LabelledName(p: Prog, name: string, used: set<string>)
    requires Labelled(p, used) && Ungenerated(name)
    ensures Label(name) in p.items <==> name in used
    ensures Labelled(Put(p, Label(name)), used + {name})
  {
    hide LabelName;
    var q := Put(p, Label(name));
    assert q.items[|p.items|] == Label(name);
    forall m | m in used ensures Label(m) in q.items {
      var i :| 0 <= i < |p.items| && p.items[i] == Label(m);
      assert q.items[i] == Label(m);
    }
  }
}
