/** The free_objs word of a superblock against the set of its free objects. */
module GrooveWord {
  import opened Basics

  /** The word whose one bits are the members of free below n. */
  function Word(free: set<nat>, n: nat): nat {
    if n == 0 then 0 else Word(free, n - 1) + if n - 1 in free then Pow2(n - 1) else 0
  }

  lemma {:induction false} WordBound(free: set<nat>, n: nat)
    ensures Word(free, n) < Pow2(n)
  {
    if n > 0 { WordBound(free, n - 1); }
  }

  /** Subtracting a free object's bit removes exactly that object, and adding the bit of
      one that is not free inserts exactly it: no borrow or carry touches another bit. */
  lemma {:induction false} SubIsRemove(free: set<nat>, i: nat, n: nat)
    requires i in free && i < n
    ensures Word(free, n) - Pow2(i) == Word(free - {i}, n)
  {
    if i < n - 1 {
      SubIsRemove(free, i, n - 1);
    } else {
      WordSame(free, free - {i}, n - 1);
    }
  }

  lemma {:induction false} AddIsInsert(free: set<nat>, i: nat, n: nat)
    requires i !in free && i < n
    ensures Word(free, n) + Pow2(i) == Word(free + {i}, n)
  {
    if i < n - 1 {
      AddIsInsert(free, i, n - 1);
    } else {
      WordSame(free, free + {i}, n - 1);
    }
  }

  lemma {:induction false} WordSame(a: set<nat>, b: set<nat>, n: nat)
    requires forall i: nat | i < n :: i in a <==> i in b
    ensures Word(a, n) == Word(b, n)
  {
    if n > 0 { WordSame(a, b, n - 1); }
  }

  /** A word determines its set, so a test of the word is a test of the set. */
  lemma {:induction false} WordDetermines(a: set<nat>, b: set<nat>, n: nat)
    requires Word(a, n) == Word(b, n)
    ensures forall i: nat | i < n :: i in a <==> i in b
  {
    if n > 0 {
      WordBound(a, n - 1);
      WordBound(b, n - 1);
      WordDetermines(a, b, n - 1);
    }
  }

  /** Shifting out the low cnt bits leaves nothing exactly when no object at or past cnt
      is marked. */
  lemma {:induction false} ShiftedOut(free: set<nat>, cnt: nat, n: nat)
    requires cnt <= n
    ensures Word(free, n) < Pow2(cnt) <==> forall i: nat | cnt <= i < n :: i !in free
  {
    if cnt < n {
      ShiftedOut(free, cnt, n - 1);
      WordBound(free, n - 1);
      PowMonotone(cnt, n - 1);
    } else {
      WordBound(free, n);
    }
  }
}
