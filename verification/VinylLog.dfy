/** The log: what replaying or recovering it gives, and its garbage ledger. */
module VinylLog {
  import opened Basics
  import opened VinylTypes
  import opened VinylStep

  // ----- replay ----------------------------------------------------------------------------

  /** The records of stored pairs. */
  function StoredRecs(s: Store): map<Key, Rec> {
    map k | k in s.recs && Stored(s, k) :: s.recs[k]
  }

  predicate NoMoves(log: seq<Block>) {
    forall i | 0 <= i < |log| :: !log[i].MoveBlk?
  }

  /** Move blocks come out naming the destination twice. */
  predicate MovesSelfNamed(log: seq<Block>) {
    forall i | 0 <= i < |log| && log[i].MoveBlk? :: log[i].src == log[i].dst
  }

  // ----- recovery ----------------------------------------------------------------------------

  /** Records rebuilt, and how many blocks were accepted before stopping. */
  datatype Recovery = Recovery(recs: map<Key, Rec>, blocks: nat)

  predicate SameHeader(r: Rec, info: Info, ctl: Ctl) {
    r.info == info && r.ctl == ctl
  }

  /** The tests serial recovery makes on a pair or dead block at pos, with m rebuilt so
      far. */
  predicate Accepts(m: map<Key, Rec>, b: Block, pos: nat, pairMax: nat) {
    match b
    case PairBlk(key, _, ctl, _) => ctl.Pair? && (key in m || |m| < pairMax)
    case DeadBlk(key, info, ctl) => ctl.Pair? && (key in m ==> m[key].pos < pos && SameHeader(m[key], info, ctl))
    case MoveBlk(_, _, _, _) => false
  }

  /** The tests on any block: a move block must be followed by the pair it moves to. */
  predicate Takes(log: seq<Block>, i: nat, m: map<Key, Rec>, pairMax: nat)
    requires i < |log|
  {
    var pos := Size(log[..i]);
    match log[i]
    case MoveBlk(src, info, ctl, dst) =>
      && i + 1 < |log| && src != dst && ctl.Pair? && log[i + 1].PairBlk?
      && log[i + 1].key == dst && log[i + 1].info == info
      && (src in m ==> m[src].pos < pos && SameHeader(m[src], info, ctl))
    case _ => Accepts(m, log[i], pos, pairMax)
  }

  /** Serial recovery from block i on: it applies blocks up to the first it rejects. */
  function Recover(log: seq<Block>, i: nat, m: map<Key, Rec>, pairMax: nat): (r: Recovery)
    ensures i <= |log| ==> i <= r.blocks <= |log|
    decreases |log| - i
  {
    if i >= |log| || !Takes(log, i, m, pairMax) then Recovery(m, i)
    else Recover(log, i + 1, Apply(m, log[i], Size(log[..i])), pairMax)
  }

  /** Recovery reads the whole log and rebuilds its replay. */
  ghost predicate Recovers(log: seq<Block>, pairMax: nat) {
    Recover(log, 0, map[], pairMax) == Recovery(Replay(log), |log|)
  }

  /** Recovery of a longer log is recovery of the old log, continued. */
  lemma {:induction false} RecoverExtends(log: seq<Block>, b: Block, i: nat, m: map<Key, Rec>, pairMax: nat)
    requires i <= |log| && NoMoves(log)
    ensures var r := Recover(log, i, m, pairMax);
      r.blocks == |log| ==> Recover(log + [b], i, m, pairMax) == Recover(log + [b], |log|, r.recs, pairMax)
    decreases |log| - i
  {
    hide Size, Apply, Takes;
    if i < |log| {
      assert (log + [b])[..i] == log[..i] && (log + [b])[i] == log[i];
      assert Takes(log + [b], i, m, pairMax) == Takes(log, i, m, pairMax) by { TakesSame(log, b, i, m, pairMax); }
      RecoverExtends(log, b, i + 1, Apply(m, log[i], Size(log[..i])), pairMax);
    }
  }

  lemma TakesSame(log: seq<Block>, b: Block, i: nat, m: map<Key, Rec>, pairMax: nat)
    requires i < |log| && !log[i].MoveBlk?
    ensures Takes(log + [b], i, m, pairMax) == Takes(log, i, m, pairMax)
  {
    hide Size;
    assert (log + [b])[..i] == log[..i] && (log + [b])[i] == log[i];
  }

  lemma RecoversOneMore(log: seq<Block>, b: Block, pairMax: nat)
    requires NoMoves(log) && Recovers(log, pairMax) && Accepts(Replay(log), b, Size(log), pairMax)
    ensures Recovers(log + [b], pairMax) && NoMoves(log + [b])
  {
    hide Size, Replay;
    RecoverExtends(log, b, 0, map[], pairMax);
    Replayed(log, b);
    assert (log + [b])[..|log|] == log;
    var m := Apply(Replay(log), b, Size(log));
    assert Recover(log + [b], |log| + 1, m, pairMax) == Recovery(m, |log| + 1);
  }

  /** Recovery stops at the first move block as written, whatever surrounds it. */
  lemma {:induction false} RecoverStops(log: seq<Block>, i: nat, j: nat, m: map<Key, Rec>, pairMax: nat)
    requires i <= j < |log| && log[j].MoveBlk? && log[j].src == log[j].dst
    ensures Recover(log, i, m, pairMax).blocks <= j
    decreases |log| - i
  {
    hide Size, Apply;
    if i < j { RecoverStops(log, i + 1, j, Apply(m, log[i], Size(log[..i])), pairMax); }
  }

  /** What every block recovery accepted satisfies: a dead block names the very pair it
      erases if there is one, a move block names another key and has its pair behind it. */
  predicate Vouched(log: seq<Block>, j: nat)
    requires j < |log|
  {
    match log[j]
    case PairBlk(_, _, ctl, _) => ctl.Pair?
    case DeadBlk(key, info, ctl) => ctl.Pair? && OnlyKnownAs(Replay(log[..j]), key, info, ctl)
    case MoveBlk(src, info, ctl, dst) =>
      && src != dst && OnlyKnownAs(Replay(log[..j]), src, info, ctl)
      && j + 1 < |log| && log[j + 1].PairBlk? && log[j + 1].key == dst && log[j + 1].info == info
  }

  predicate OnlyKnownAs(m: map<Key, Rec>, key: Key, info: Info, ctl: Ctl) {
    key in m ==> m[key].info == info && m[key].ctl == ctl
  }

  /** Whatever the log, what recovery rebuilds is the replay of the blocks it accepted,
      each of which is vouched for, and it fits the meta. */
  lemma {:induction false} RecoverSound(log: seq<Block>, i: nat, pairMax: nat)
    requires i <= |log| && |Replay(log[..i])| <= pairMax
    ensures var r := Recover(log, i, Replay(log[..i]), pairMax);
      && r.recs == Replay(log[..r.blocks]) && |r.recs| <= pairMax
      && forall j | i <= j < r.blocks :: Vouched(log, j)
    decreases |log| - i
  {
    hide Size, Replay, Apply, Takes, Vouched;
    if i < |log| && Takes(log, i, Replay(log[..i]), pairMax) {
      assert log[..i + 1] == log[..i] + [log[i]];
      Replayed(log[..i], log[i]);
      TakenIsVouched(log, i, pairMax);
      RecoverSound(log, i + 1, pairMax);
    }
  }

  lemma TakenIsVouched(log: seq<Block>, i: nat, pairMax: nat)
    requires i < |log| && Takes(log, i, Replay(log[..i]), pairMax) && |Replay(log[..i])| <= pairMax
    ensures Vouched(log, i) && |Apply(Replay(log[..i]), log[i], Size(log[..i]))| <= pairMax
  {
    hide Size, Replay;
    var m := Replay(log[..i]);
    match log[i]
    case PairBlk(key, info, ctl, _) =>
      assert m[key := Rec(ctl, info, Size(log[..i]))].Keys == m.Keys + {key};
    case DeadBlk(key, _, _) => SubsetSize((m - {key}).Keys, m.Keys);
    case MoveBlk(src, _, _, _) => SubsetSize((m - {src}).Keys, m.Keys);
  }

  // ----- replay against the meta -----------------------------------------------------------------

  /** Without moves the log replays and recovers to exactly the stored records; every
      record's position is that of its key's last pair block. */
  ghost predicate LogOk(s: Store, pairMax: nat) {
    && MovesSelfNamed(s.log)
    && (NoMoves(s.log) ==> Replay(s.log) == StoredRecs(s) && Recovers(s.log, pairMax))
    && (forall k | k in s.recs && Stored(s, k) :: s.recs[k].pos < Size(s.log))
  }

  lemma AppendedMoves(log: seq<Block>, b: Block)
    ensures NoMoves(log + [b]) <==> NoMoves(log) && !b.MoveBlk?
    ensures MovesSelfNamed(log + [b]) <==> MovesSelfNamed(log) && (b.MoveBlk? ==> b.src == b.dst)
  {
    assert forall i | 0 <= i < |log| :: (log + [b])[i] == log[i];
    assert (log + [b])[|log|] == b;
  }

  lemma StoredCount(s: Store)
    ensures |StoredRecs(s)| <= |s.recs|
    ensures forall k | k in s.recs && !Stored(s, k) :: |StoredRecs(s)| < |s.recs|
  {
    assert StoredRecs(s).Keys <= s.recs.Keys;
    SubsetSize(StoredRecs(s).Keys, s.recs.Keys);
    forall k | k in s.recs && !Stored(s, k)
      ensures |StoredRecs(s)| < |s.recs|
    {
      assert StoredRecs(s).Keys <= s.recs.Keys - {k};
      SubsetSize(StoredRecs(s).Keys, s.recs.Keys - {k});
    }
  }

  lemma LogWritten(s: Store, pairMax: nat, k: Key, info: Info, ctl: Ctl, val: seq<int>)
    requires LogOk(s, pairMax) && k in s.recs && ctl.Pair? && |s.recs| <= pairMax
    ensures LogOk(Written(s, k, info, ctl, val), pairMax)
    ensures NoMoves(Written(s, k, info, ctl, val).log) <==> NoMoves(s.log)
  {
    hide Size, Replay, Recovers, NoMoves, MovesSelfNamed;
    var s' := Written(s, k, info, ctl, val);
    var b := PairBlk(k, info, ctl, val);
    Appended(s.log, b);
    AppendedMoves(s.log, b);
    if NoMoves(s.log) {
      StoredCount(s);
      RecoversOneMore(s.log, b, pairMax);
      Replayed(s.log, b);
      assert StoredRecs(s') == StoredRecs(s)[k := Rec(ctl, info, Size(s.log))];
    }
  }

  lemma LogErased(s: Store, pairMax: nat, k: Key)
    requires LogOk(s, pairMax) && k in s.recs
    ensures LogOk(Erased(s, k), pairMax)
    ensures NoMoves(Erased(s, k).log) <==> NoMoves(s.log)
  {
    hide Size, Replay, Recovers, NoMoves, MovesSelfNamed;
    var s' := Erased(s, k);
    if Stored(s, k) {
      var b := DeadBlk(k, s.recs[k].info, s.recs[k].ctl);
      Appended(s.log, b);
      AppendedMoves(s.log, b);
      if NoMoves(s.log) {
        RecoversOneMore(s.log, b, pairMax);
        Replayed(s.log, b);
        assert StoredRecs(s') == StoredRecs(s) - {k};
      }
    } else {
      assert StoredRecs(s') == StoredRecs(s);
    }
  }

  /** Marking a key as being created, or forgetting one that was, leaves the log alone. */
  lemma LogCreating(s: Store, s': Store, pairMax: nat, k: Key)
    requires LogOk(s, pairMax) && s'.log == s.log && !Stored(s, k) && !Stored(s', k)
    requires forall j | j != k :: (j in s.recs <==> j in s'.recs) && (j in s.recs ==> s'.recs[j] == s.recs[j])
    ensures LogOk(s', pairMax)
  {
    hide Size, Replay, Recovers, NoMoves, MovesSelfNamed;
    assert StoredRecs(s') == StoredRecs(s);
  }

  lemma LogMoved(s: Store, pairMax: nat, src: Key, dst: Key, info: Info, ctl: Ctl, val: seq<int>)
    requires MovesSelfNamed(s.log) && forall k | k in s.recs && Stored(s, k) && k != dst :: s.recs[k].pos < Size(s.log)
    ensures LogOk(Moved(s, src, dst, info, ctl, val), pairMax)
    ensures !NoMoves(Moved(s, src, dst, info, ctl, val).log)
  {
    hide Size, Replay, Recovers, NoMoves, MovesSelfNamed;
    var move := MoveBlk(dst, info, ctl, dst);
    Appended(s.log, move);
    AppendedMoves(s.log, move);
    Appended(s.log + [move], PairBlk(dst, info, ctl, val));
    AppendedMoves(s.log + [move], PairBlk(dst, info, ctl, val));
  }

  /** Recovery gets through the log exactly when no key was ever moved, and then
      rebuilds exactly the stored records. */
  lemma RecoveryExact(s: Store, pairMax: nat)
    requires LogOk(s, pairMax)
    ensures var r := Recover(s.log, 0, map[], pairMax);
      && (r.blocks == |s.log| <==> NoMoves(s.log))
      && (NoMoves(s.log) ==> r.recs == StoredRecs(s))
  {
    hide Size, Replay, Recover;
    if !NoMoves(s.log) {
      var j :| 0 <= j < |s.log| && s.log[j].MoveBlk?;
      RecoverStops(s.log, 0, j, map[], pairMax);
    }
  }

  // ----- the ledger ----------------------------------------------------------------------------------

  /** What a record accounts for, in blocks or in bytes. */
  function Weight(r: Rec, bytes: bool): nat {
    if r.ctl.Pair? then (if bytes then PairSz(r.ctl.esz) else 1) else 0
  }

  ghost function Live(m: map<Key, Rec>, bytes: bool): nat {
    if m == map[] then 0 else var k :| k in m; Weight(m[k], bytes) + Live(m - {k}, bytes)
  }

  lemma {:induction false} LiveTake(m: map<Key, Rec>, k: Key, bytes: bool)
    requires k in m
    ensures Live(m, bytes) == Weight(m[k], bytes) + Live(m - {k}, bytes)
    decreases |m|
  {
    var j :| j in m && Live(m, bytes) == Weight(m[j], bytes) + Live(m - {j}, bytes);
    if j != k {
      LiveTake(m - {j}, k, bytes);
      LiveTake(m - {k}, j, bytes);
      assert m - {j} - {k} == m - {k} - {j};
    }
  }

  lemma LivePut(m: map<Key, Rec>, k: Key, r: Rec, bytes: bool)
    ensures Live(m[k := r], bytes) == Weight(r, bytes) + Live(m - {k}, bytes)
  {
    LiveTake(m[k := r], k, bytes);
    assert m[k := r] - {k} == m - {k};
  }

  function Extent(log: seq<Block>, bytes: bool): nat {
    if bytes then Size(log) else |log|
  }

  /** Log content not accounted for by live pairs or garbage, in blocks or bytes. */
  ghost function Ledger(s: Store, bytes: bool): int {
    Extent(s.log, bytes) - Live(s.recs, bytes) - if bytes then s.garbageSz else s.garbageCnt
  }

  lemma LedgerWritten(s: Store, k: Key, info: Info, ctl: Ctl, val: seq<int>, bytes: bool)
    requires k in s.recs && ctl.Pair?
    ensures Ledger(Written(s, k, info, ctl, val), bytes) == Ledger(s, bytes)
  {
    hide Size, Live;
    Appended(s.log, PairBlk(k, info, ctl, val));
    LivePut(s.recs, k, Rec(ctl, info, Size(s.log)), bytes);
    LiveTake(s.recs, k, bytes);
  }

  lemma LedgerErased(s: Store, k: Key, bytes: bool)
    requires k in s.recs
    ensures Ledger(Erased(s, k), bytes) == Ledger(s, bytes)
  {
    hide Size, Live;
    Appended(s.log, DeadBlk(k, s.recs[k].info, s.recs[k].ctl));
    LiveTake(s.recs, k, bytes);
  }

  lemma LedgerCreated(s: Store, k: Key, bytes: bool)
    requires k !in s.recs
    ensures Ledger(s.(recs := s.recs[k := Rec(Creating, NO_INFO, 0)], pairCnt := s.pairCnt + 1), bytes)
        == Ledger(s, bytes)
  {
    hide Size, Live;
    LivePut(s.recs, k, Rec(Creating, NO_INFO, 0), bytes);
    assert s.recs - {k} == s.recs;
  }

  lemma LedgerCleared(s: Store, k: Key, bytes: bool)
    requires Stored(s, k)
    ensures Ledger(Forgotten(s, k).(garbageCnt := s.garbageCnt + 1, garbageSz := s.garbageSz + OldSz(s, k)), bytes)
        == Ledger(s, bytes)
  {
    hide Size, Live;
    LiveTake(s.recs, k, bytes);
  }

  lemma LedgerMoved(s: Store, src: Key, dst: Key, info: Info, ctl: Ctl, val: seq<int>, bytes: bool)
    requires Stored(s, src) && dst !in s.recs && ctl.Pair?
    ensures Ledger(Moved(s, src, dst, info, ctl, val), bytes) == Ledger(s, bytes)
  {
    hide Size, Live;
    var move := MoveBlk(dst, info, ctl, dst);
    Appended(s.log, move);
    Appended(s.log + [move], PairBlk(dst, info, ctl, val));
    LiveTake(s.recs, src, bytes);
    LivePut(s.recs - {src}, dst, Rec(ctl, info, Size(s.log + [move])), bytes);
    assert s.recs - {src} - {dst} == s.recs - {src};
  }
}
