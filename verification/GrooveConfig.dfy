/** Constants and size-class table of the groove data allocator. */
module GrooveConfig {

  const BLOCK: nat := 512
  const VOLUME: nat := 0x4000_0000

  /** Offset of volume v from volume 0. */
  function VolumeOff(v: nat): nat {
    v * 0x4000_0000
  }

  /** One row of the size-class table. A superblock of a class is a header
      block followed by objCnt objects of objFootprint bytes; it lives in an
      object of class parentSzc, or fills a volume when parentSzc is the
      number of classes. */
  datatype SzcCfg = SzcCfg(objFootprint: nat, objCnt: nat, cgroupMask: nat, parentSzc: nat)

  function SuperblockFootprint(c: SzcCfg): nat {
    BLOCK + c.objCnt * c.objFootprint
  }

  /** What the allocator needs of a row. Everything proved about the allocator
      holds for any table of such rows. */
  predicate ValidRow(cfg: seq<SzcCfg>, s: nat)
    requires s < |cfg|
  {
    && 2 <= cfg[s].objCnt < 64
    && 0 < cfg[s].objFootprint
    && cfg[s].objFootprint % BLOCK == 0
    && s < cfg[s].parentSzc <= |cfg|
    && (cfg[s].parentSzc == |cfg| <==> s == |cfg| - 1)
    && (cfg[s].parentSzc < |cfg| ==> SuperblockFootprint(cfg[s]) <= cfg[cfg[s].parentSzc].objFootprint)
    && (cfg[s].parentSzc == |cfg| ==> SuperblockFootprint(cfg[s]) <= VOLUME - BLOCK)
  }

  predicate ValidCfg(cfg: seq<SzcCfg>) {
    0 < |cfg| && forall s: nat :: s < |cfg| ==> ValidRow(cfg, s)
  }

  predicate Ascending(cfg: seq<SzcCfg>) {
    forall i: nat, j: nat :: i < j < |cfg| ==> cfg[i].objFootprint < cfg[j].objFootprint
  }

  const SZC_CFG: seq<SzcCfg> := [
    SzcCfg(     512, 38, 63, 11), SzcCfg(    1024, 19, 63, 11), SzcCfg(    1536, 12, 63, 11),
    SzcCfg(    2048,  9, 63, 11), SzcCfg(    2560,  7, 63, 11), SzcCfg(    3072,  6, 63, 11),
    SzcCfg(    3584,  5, 63, 11), SzcCfg(    4608,  4, 63, 11), SzcCfg(    6144,  3, 63, 11),
    SzcCfg(    9728,  2, 63, 11), SzcCfg(   13312,  3, 31, 13), SzcCfg(   19968,  2, 31, 13),
    SzcCfg(   26624,  3, 15, 15), SzcCfg(   40448,  2, 15, 15), SzcCfg(   54272,  3,  7, 18),
    SzcCfg(   81408,  2,  7, 18), SzcCfg(   81920,  4,  3, 20), SzcCfg(  109056,  3,  3, 20),
    SzcCfg(  163840,  2,  3, 20), SzcCfg(  218624,  3,  1, 22), SzcCfg(  328192,  2,  1, 22),
    SzcCfg(  438272,  3,  0, 24), SzcCfg(  657408,  2,  0, 24), SzcCfg(  876544,  3,  0, 26),
    SzcCfg( 1315328,  2,  0, 26), SzcCfg( 1754112,  3,  0, 28), SzcCfg( 2631168,  2,  0, 28),
    SzcCfg( 3508224,  3,  0, 30), SzcCfg( 5262848,  2,  0, 30), SzcCfg( 7017472,  3,  0, 31),
    SzcCfg(10526208,  2,  0, 31), SzcCfg(21053440, 51,  0, 32)
  ]

  /** Rows are checked one at a time, by evaluation, a few to a lemma. */
  lemma TableRows0()
    ensures forall s: nat :: 0 <= s < 8 ==> ValidRow(SZC_CFG, s)
  {
    assert ValidRow(SZC_CFG, 0) && ValidRow(SZC_CFG, 1) && ValidRow(SZC_CFG, 2) && ValidRow(SZC_CFG, 3);
    assert ValidRow(SZC_CFG, 4) && ValidRow(SZC_CFG, 5) && ValidRow(SZC_CFG, 6) && ValidRow(SZC_CFG, 7);
  }

  lemma TableRows8()
    ensures forall s: nat :: 8 <= s < 12 ==> ValidRow(SZC_CFG, s)
  {
    assert ValidRow(SZC_CFG, 8) && ValidRow(SZC_CFG, 9) && ValidRow(SZC_CFG, 10) && ValidRow(SZC_CFG, 11);
  }

  lemma TableRows12()
    ensures forall s: nat :: 12 <= s < 16 ==> ValidRow(SZC_CFG, s)
  {
    assert ValidRow(SZC_CFG, 12) && ValidRow(SZC_CFG, 13) && ValidRow(SZC_CFG, 14) && ValidRow(SZC_CFG, 15);
  }

  lemma TableRows16()
    ensures forall s: nat :: 16 <= s < 20 ==> ValidRow(SZC_CFG, s)
  {
    assert ValidRow(SZC_CFG, 16) && ValidRow(SZC_CFG, 17) && ValidRow(SZC_CFG, 18) && ValidRow(SZC_CFG, 19);
  }

  lemma TableRows20()
    ensures forall s: nat :: 20 <= s < 24 ==> ValidRow(SZC_CFG, s)
  {
    assert ValidRow(SZC_CFG, 20) && ValidRow(SZC_CFG, 21) && ValidRow(SZC_CFG, 22) && ValidRow(SZC_CFG, 23);
  }

  lemma TableRows24()
    ensures forall s: nat :: 24 <= s < 32 ==> ValidRow(SZC_CFG, s)
  {
    assert ValidRow(SZC_CFG, 24) && ValidRow(SZC_CFG, 25) && ValidRow(SZC_CFG, 26) && ValidRow(SZC_CFG, 27);
    assert ValidRow(SZC_CFG, 28) && ValidRow(SZC_CFG, 29) && ValidRow(SZC_CFG, 30) && ValidRow(SZC_CFG, 31);
  }

  lemma TableSteps()
    ensures forall k: nat :: 0 < k < |SZC_CFG| ==> SZC_CFG[k - 1].objFootprint < SZC_CFG[k].objFootprint
  {
  }

  lemma {:induction false} AscendingFrom(cfg: seq<SzcCfg>, i: nat, j: nat)
    requires i < j < |cfg|
    requires forall k: nat :: 0 < k < |cfg| ==> cfg[k - 1].objFootprint < cfg[k].objFootprint
    ensures cfg[i].objFootprint < cfg[j].objFootprint
    decreases j
  {
    assert cfg[j - 1].objFootprint < cfg[j].objFootprint;
    if i < j - 1 {
      AscendingFrom(cfg, i, j - 1);
    }
  }

  /** The shipped table nests: every superblock fits its parent object, the
      last class fills a volume, and footprints ascend. */
  lemma TableIsValid()
    ensures ValidCfg(SZC_CFG)
    ensures Ascending(SZC_CFG)
  {
    TableRows0();
    TableRows8();
    TableRows12();
    TableRows16();
    TableRows20();
    TableRows24();
    TableSteps();
    forall i: nat, j: nat | i < j < |SZC_CFG|
      ensures SZC_CFG[i].objFootprint < SZC_CFG[j].objFootprint
    {
      AscendingFrom(SZC_CFG, i, j);
    }
  }
}
