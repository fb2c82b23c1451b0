/** What every change of the persistent side does to the committed map. */
module VinylStore {
  import opened VinylTypes
  import opened VinylStep
  import opened VinylInv

  /** Appending to the log leaves every stored pair where it was. */
  lemma AppendKeeps(sizes: seq<nat>, s: Store, b: Block, k: Key)
    requires sizes != [] && RecOk(sizes, s, k) && Stored(s, k)
    ensures BlockAt(s.log + [b], s.recs[k].pos) == BlockAt(s.log, s.recs[k].pos)
  {
    hide Size, BlockAt;
    Appended(s.log, b);
  }

  /** A store that agrees on a key and has a longer log. */
  lemma KeptRec(sizes: seq<nat>, s: Store, s': Store, b: Block, k: Key)
    requires sizes != [] && RecOk(sizes, s, k)
    requires s'.log == s.log + [b] || s'.log == s.log
    requires (k in s.recs <==> k in s'.recs) && (k in s.recs ==> s'.recs[k] == s.recs[k])
    ensures RecOk(sizes, s', k) && (Stored(s, k) ==> Stored(s', k) && Val(s', k) == Val(s, k))
  {
    hide BlockAt;
    if Stored(s, k) && s'.log == s.log + [b] { AppendKeeps(sizes, s, b, k); }
  }

  /** Committing a pair: the map gets that pair, and the record names the block just
      appended. */
  lemma WrittenOk(sizes: seq<nat>, s: Store, k: Key, info: Info, ctl: Ctl, val: seq<int>)
    requires sizes != [] && StoreOk(sizes, s) && k in s.recs
    requires |val| == info.valSz <= ValMax(sizes) && ctl.Pair? && (ctl.raw ==> ctl.esz == info.valSz)
    ensures var s' := Written(s, k, info, ctl, val);
      && StoreOk(sizes, s') && Agree(s, s', {k}) && Stored(s', k) && Val(s', k) == val && s'.recs[k].info == info
      && Committed(s') == Committed(s)[k := Content(info, val)]
  {
    hide BlockAt, Size, RecOk;
    var s' := Written(s, k, info, ctl, val);
    var b := PairBlk(k, info, ctl, val);
    Appended(s.log, b);
    assert s'.recs.Keys == s.recs.Keys;
    WrittenRec(sizes, s, k, info, ctl, val);
    forall j
      ensures RecOk(sizes, s', j) && (j != k && Stored(s, j) ==> Stored(s', j) && Val(s', j) == Val(s, j))
    {
      if j != k { KeptRec(sizes, s, s', b, j); }
    }
  }

  lemma WrittenRec(sizes: seq<nat>, s: Store, k: Key, info: Info, ctl: Ctl, val: seq<int>)
    requires sizes != [] && |val| == info.valSz <= ValMax(sizes) && ctl.Pair? && (ctl.raw ==> ctl.esz == info.valSz)
    ensures var s' := Written(s, k, info, ctl, val); RecOk(sizes, s', k) && Val(s', k) == val
  {
    hide BlockAt, Size;
    Appended(s.log, PairBlk(k, info, ctl, val));
  }

  /** Erasing or cancelling a creation: the map loses that key and nothing else. */
  lemma ErasedOk(sizes: seq<nat>, s: Store, k: Key)
    requires sizes != [] && StoreOk(sizes, s) && k in s.recs
    ensures var s' := Erased(s, k);
      StoreOk(sizes, s') && Agree(s, s', {k}) && k !in s'.recs && Committed(s') == Committed(s) - {k}
  {
    hide BlockAt, Size, RecOk;
    var s' := Erased(s, k);
    assert s'.recs.Keys == s.recs.Keys - {k};
    forall j
      ensures RecOk(sizes, s', j) && (j != k && Stored(s, j) ==> Stored(s', j) && Val(s', j) == Val(s, j))
    {
      if j != k {
        KeptRec(sizes, s, s', DeadBlk(k, s.recs[k].info, s.recs[k].ctl), j);
      } else {
        GoneRec(sizes, s', j);
      }
    }
  }

  lemma GoneRec(sizes: seq<nat>, s: Store, k: Key)
    requires sizes != [] && !Stored(s, k)
    ensures RecOk(sizes, s, k)
  {
  }

  lemma ForgottenOk(sizes: seq<nat>, s: Store, k: Key)
    requires sizes != [] && StoreOk(sizes, s) && k in s.recs
    ensures var s' := Forgotten(s, k);
      StoreOk(sizes, s') && Agree(s, s', {k}) && k !in s'.recs && Committed(s') == Committed(s) - {k}
  {
    hide BlockAt, RecOk;
    var s' := Forgotten(s, k);
    assert s'.recs.Keys == s.recs.Keys - {k};
    forall j
      ensures RecOk(sizes, s', j) && (j != k && Stored(s, j) ==> Stored(s', j) && Val(s', j) == Val(s, j))
    {
      if j != k {
        KeptRec(sizes, s, s', DeadBlk(k, NO_INFO, Creating), j);
      } else {
        GoneRec(sizes, s', j);
      }
    }
  }

  /** A key marked as being created is not yet in the map. */
  lemma CreatedOk(sizes: seq<nat>, s: Store, k: Key)
    requires sizes != [] && StoreOk(sizes, s) && k !in s.recs
    ensures var s' := s.(recs := s.recs[k := Rec(Creating, NO_INFO, 0)], pairCnt := s.pairCnt + 1);
      StoreOk(sizes, s') && Agree(s, s', {k}) && k in s'.recs && !Stored(s', k) && Committed(s') == Committed(s)
  {
    hide BlockAt, RecOk;
    var s' := s.(recs := s.recs[k := Rec(Creating, NO_INFO, 0)], pairCnt := s.pairCnt + 1);
    assert s'.recs.Keys == s.recs.Keys + {k};
    forall j
      ensures RecOk(sizes, s', j) && (j != k && Stored(s, j) ==> Stored(s', j) && Val(s', j) == Val(s, j))
    {
      if j != k {
        KeptRec(sizes, s, s', DeadBlk(k, NO_INFO, Creating), j);
      } else {
        GoneRec(sizes, s', j);
      }
    }
  }

  /** A move: src is gone and dst holds what src held. */
  lemma MovedOk(sizes: seq<nat>, s: Store, src: Key, dst: Key, info: Info, ctl: Ctl, val: seq<int>)
    requires sizes != [] && StoreOk(sizes, s) && Stored(s, src) && dst !in s.recs && src != dst
    requires |val| == info.valSz <= ValMax(sizes) && ctl == Pair(true, info.valSz)
    ensures var s' := Moved(s, src, dst, info, ctl, val);
      && StoreOk(sizes, s') && Agree(s, s', {src, dst}) && src !in s'.recs && Stored(s', dst) && Val(s', dst) == val
      && s'.recs[dst].info == info
      && Committed(s') == (Committed(s) - {src})[dst := Content(info, val)]
  {
    hide BlockAt, Size, RecOk;
    var move := MoveBlk(dst, info, ctl, dst);
    var s' := Moved(s, src, dst, info, ctl, val);
    Appended(s.log, move);
    Appended(s.log + [move], PairBlk(dst, info, ctl, val));
    MovedRec(sizes, s, src, dst, info, ctl, val);
    assert s'.recs.Keys == s.recs.Keys - {src} + {dst};
    hide Committed;
    forall j
      ensures RecOk(sizes, s', j) && (j !in {src, dst} && Stored(s, j) ==> Stored(s', j) && Val(s', j) == Val(s, j))
    {
      if j == src {
        GoneRec(sizes, s', j);
      } else if j != dst {
        KeptRec(sizes, s, s.(log := s.log + [move]), move, j);
        KeptRec(sizes, s.(log := s.log + [move]), s', PairBlk(dst, info, ctl, val), j);
      }
    }
    MovedMap(s, s', src, dst);
  }

  lemma MovedMap(s: Store, s': Store, src: Key, dst: Key)
    requires Agree(s, s', {src, dst}) && src !in s'.recs && Stored(s', dst)
    ensures Committed(s') == (Committed(s) - {src})[dst := Content(s'.recs[dst].info, Val(s', dst))]
  {
    hide Val;
  }

  lemma MovedRec(sizes: seq<nat>, s: Store, src: Key, dst: Key, info: Info, ctl: Ctl, val: seq<int>)
    requires sizes != [] && |val| == info.valSz <= ValMax(sizes) && ctl == Pair(true, info.valSz)
    ensures var s' := Moved(s, src, dst, info, ctl, val); RecOk(sizes, s', dst) && Val(s', dst) == val
  {
    hide BlockAt, Size;
    Appended(s.log + [MoveBlk(dst, info, ctl, dst)], PairBlk(dst, info, ctl, val));
  }
}
