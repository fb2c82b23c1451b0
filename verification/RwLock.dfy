/** The read-write spin lock: one 16-bit word, any number of threads, and a load and
    a compare-and-swap as separate steps. */
module RwLock {

  const WRITE_LOCK: nat := 0xFFFF

  /** Where a thread is between the load and the compare-and-swap of an attempt. */
  datatype Pc = Idle | ReadSeen(value: nat) | WriteSeen(value: nat)

  /** What a thread holds and where it is. */
  datatype Thread = Thread(nread: nat, writing: bool, pc: Pc)

  datatype State = State(value: nat, threads: seq<Thread>)

  /** One atomic step of a thread. LoadRead serves read and tryread; an attempt that
      does not succeed just ends, to be made again or given up. */
  datatype Action =
    | LoadRead | CasRead | LoadWrite | CasWrite | TryWrite | GiveUp
    | Unread | Unwrite | Demote

  /** What the lock's users owe: a thread releases or demotes only what it holds, and
      does one thing at a time. */
  predicate Enabled(s: State, t: nat, a: Action) {
    t < |s.threads| &&
    var x := s.threads[t];
    match a
    case LoadRead => x.pc.Idle?
    case LoadWrite => x.pc.Idle?
    case TryWrite => x.pc.Idle?
    case CasRead => x.pc.ReadSeen? && x.pc.value < 0xFFFE
    case CasWrite => x.pc.WriteSeen? && x.pc.value == 0
    case GiveUp => !x.pc.Idle?
    case Unread => x.pc.Idle? && x.nread > 0
    case Unwrite => x.pc.Idle? && x.writing
    case Demote => x.pc.Idle? && x.writing
  }

  function Next(s: State, t: nat, a: Action): State
    requires Enabled(s, t, a)
  {
    var x := s.threads[t];
    match a
    case LoadRead => Put(s, t, s.value, x.(pc := ReadSeen(s.value)))
    case LoadWrite => Put(s, t, s.value, x.(pc := WriteSeen(s.value)))
    case CasRead =>
      if s.value == x.pc.value then Put(s, t, (x.pc.value + 1) % 0x10000, x.(nread := x.nread + 1, pc := Idle))
      else Put(s, t, s.value, x.(pc := Idle))
    case CasWrite =>
      if s.value == 0 then Put(s, t, WRITE_LOCK, x.(writing := true, pc := Idle))
      else Put(s, t, s.value, x.(pc := Idle))
    case TryWrite =>
      if s.value == 0 then Put(s, t, WRITE_LOCK, x.(writing := true)) else s
    case GiveUp => Put(s, t, s.value, x.(pc := Idle))
    case Unread => Put(s, t, (s.value + 0xFFFF) % 0x10000, x.(nread := x.nread - 1))
    case Unwrite => Put(s, t, 0, x.(writing := false))
    case Demote => Put(s, t, 1, x.(writing := false, nread := x.nread + 1))
  }

  function Put(s: State, t: nat, value: nat, x: Thread): State
    requires t < |s.threads|
  {
    State(value, s.threads[t := x])
  }

  function Readers(ths: seq<Thread>): nat {
    if ths == [] then 0 else Readers(ths[..|ths| - 1]) + ths[|ths| - 1].nread
  }

  function Writers(ths: seq<Thread>): nat {
    if ths == [] then 0 else Writers(ths[..|ths| - 1]) + if ths[|ths| - 1].writing then 1 else 0
  }

  /** The word is the write mark exactly when there is one writer and no reader, and
      otherwise counts the readers, with no writer about. */
  predicate Counts(s: State) {
    && (s.value == WRITE_LOCK <==> Writers(s.threads) == 1 && Readers(s.threads) == 0)
    && (s.value != WRITE_LOCK ==> Writers(s.threads) == 0 && Readers(s.threads) == s.value <= 0xFFFE)
  }

  lemma {:induction false} PutCounts(ths: seq<Thread>, t: nat, x: Thread)
    requires t < |ths|
    ensures Readers(ths[t := x]) == Readers(ths) - ths[t].nread + x.nread
    ensures Writers(ths[t := x]) == Writers(ths) - (if ths[t].writing then 1 else 0) + (if x.writing then 1 else 0)
    ensures ths[t].nread <= Readers(ths) && (ths[t].writing ==> Writers(ths) > 0)
  {
    var n := |ths| - 1;
    if t < n {
      assert ths[t := x][..n] == ths[..n][t := x];
      PutCounts(ths[..n], t, x);
    } else {
      assert ths[t := x][..n] == ths[..n];
    }
  }

  lemma StepCounts(s: State, t: nat, a: Action)
    requires Counts(s) && Enabled(s, t, a)
    ensures Counts(Next(s, t, a))
  {
    hide Readers, Writers;
    PutCounts(s.threads, t, Next(s, t, a).threads[t]);
    assert s.threads[t := s.threads[t]] == s.threads;
  }

  /** Runs of any length by any number of threads. */
  datatype Step = Step(t: nat, a: Action)

  predicate Legal(s: State, run: seq<Step>)
    decreases |run|
  {
    run != [] ==> Enabled(s, run[0].t, run[0].a) && Legal(Next(s, run[0].t, run[0].a), run[1..])
  }

  function Run(s: State, run: seq<Step>): State
    requires Legal(s, run)
    decreases |run|
  {
    if run == [] then s else Run(Next(s, run[0].t, run[0].a), run[1..])
  }

  /** A new lock: value zero, nobody holding or trying. */
  predicate Fresh(s: State) {
    s.value == 0 && forall t | 0 <= t < |s.threads| :: s.threads[t] == Thread(0, false, Idle)
  }

  lemma {:induction false} FreshCounts(s: State, n: nat)
    requires Fresh(s) && n <= |s.threads|
    ensures Readers(s.threads[..n]) == 0 && Writers(s.threads[..n]) == 0
  {
    if n > 0 {
      FreshCounts(s, n - 1);
      assert s.threads[..n][..n - 1] == s.threads[..n - 1];
    }
  }

  lemma {:induction false} RunCounts(s: State, run: seq<Step>)
    requires Counts(s) && Legal(s, run)
    ensures Counts(Run(s, run))
    decreases |run|
  {
    hide Counts, Enabled, Next;
    if run != [] {
      StepCounts(s, run[0].t, run[0].a);
      RunCounts(Next(s, run[0].t, run[0].a), run[1..]);
    }
  }

  /** From a new lock, in every interleaving: the word tells who holds the lock, and so
      a writer excludes every other writer and every reader. */
  lemma LockIsSafe(s: State, run: seq<Step>, t: nat, u: nat)
    requires Fresh(s) && Legal(s, run) && t < |s.threads| && u < |s.threads|
    ensures var z := Run(s, run);
      && Counts(z) && |z.threads| == |s.threads|
      && (z.threads[t].writing ==> z.threads[u].nread == 0 && (u != t ==> !z.threads[u].writing))
  {
    hide Readers, Writers;
    FreshCounts(s, |s.threads|);
    assert s.threads[..|s.threads|] == s.threads;
    RunCounts(s, run);
    RunThreads(s, run);
    var z := Run(s, run);
    PutCounts(z.threads, t, z.threads[t].(writing := false));
    PutCounts(z.threads, u, z.threads[u]);
    if t != u { PutCounts(z.threads[t := z.threads[t].(writing := false)], u, z.threads[u]); }
  }

  lemma {:induction false} RunThreads(s: State, run: seq<Step>)
    requires Legal(s, run)
    ensures |Run(s, run).threads| == |s.threads|
    decreases |run|
  {
    if run != [] { RunThreads(Next(s, run[0].t, run[0].a), run[1..]); }
  }

  // ----- the lock can be taken and given back ------------------------------------------------------

  /** What changes for thread t, and that nothing changes for the others. */
  predicate Becomes(s: State, s': State, t: nat, nread: int, writing: bool)
    requires t < |s.threads|
  {
    && |s'.threads| == |s.threads| && (forall u | 0 <= u < |s.threads| && u != t :: s'.threads[u] == s.threads[u])
    && s'.threads[t] == Thread(if nread >= 0 then nread else 0, writing, Idle)
  }

  /** Nobody holds the lock: a write attempt that nobody interferes with succeeds, in one
      step or in two. */
  lemma FreeLockWrites(s: State, t: nat)
    requires Counts(s) && t < |s.threads| && s.threads[t].pc.Idle?
    requires Readers(s.threads) == 0 && Writers(s.threads) == 0
    ensures Becomes(s, Next(s, t, TryWrite), t, 0, true)
    ensures var s1 := Next(s, t, LoadWrite); Enabled(s1, t, CasWrite) && Becomes(s, Next(s1, t, CasWrite), t, 0, true)
  {
    hide Readers, Writers;
    PutCounts(s.threads, t, s.threads[t]);
  }

  /** Nobody writes and fewer than 65534 read: a read attempt that nobody interferes with
      succeeds. */
  lemma OpenLockReads(s: State, t: nat)
    requires Counts(s) && t < |s.threads| && s.threads[t].pc.Idle?
    requires Writers(s.threads) == 0 && Readers(s.threads) < 0xFFFE
    ensures var s1 := Next(s, t, LoadRead);
      && Enabled(s1, t, CasRead)
      && Becomes(s, Next(s1, t, CasRead), t, s.threads[t].nread + 1, false)
      && Next(s1, t, CasRead).value == s.value + 1
  {
    hide Readers, Writers;
    PutCounts(s.threads, t, s.threads[t]);
  }

  /** A write attempt on a held lock changes nothing. */
  lemma HeldLockRefuses(s: State, t: nat)
    requires Counts(s) && t < |s.threads| && s.threads[t].pc.Idle?
    requires Readers(s.threads) > 0 || Writers(s.threads) > 0
    ensures Next(s, t, TryWrite) == s
  {
    hide Readers, Writers;
  }

  /** Giving back gives back exactly that: one read, the write, or the write for a read. */
  lemma GivesBack(s: State, t: nat)
    requires Counts(s) && t < |s.threads| && s.threads[t].pc.Idle?
    ensures s.threads[t].nread > 0 ==>
      Becomes(s, Next(s, t, Unread), t, s.threads[t].nread - 1, s.threads[t].writing)
      && Next(s, t, Unread).value == s.value - 1
    ensures s.threads[t].writing ==> Becomes(s, Next(s, t, Unwrite), t, 0, false) && Next(s, t, Unwrite).value == 0
    ensures s.threads[t].writing ==> Becomes(s, Next(s, t, Demote), t, 1, false) && Next(s, t, Demote).value == 1
  {
    hide Readers, Writers;
    PutCounts(s.threads, t, s.threads[t]);
  }
}
