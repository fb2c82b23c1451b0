/** What the hash computes, said without its own definition: the reference values of
    the 64-bit xxHash come out, on inputs that go through every kind of step. */
module HashFacts {
  import opened HashVariants

  /** No bytes at all. */
  lemma EmptyValue()
    ensures Hash(0, []) == 0xEF46_DB37_51D8_E999
  {
  }

  // ----- single bytes --------------------------------------------------------------------------------

  lemma BytesFacts()
    ensures Add(0, C5) == 0x27D4_EB2F_1656_67C5 && Add(0x27D4_EB2F_1656_67C5, 3) == 0x27D4_EB2F_1656_67C8
    ensures Mul(Wide(97), C5) == 0x17AD_1CD7_76BD_51A5
    ensures Xor(0x27D4_EB2F_1656_67C8, 0x17AD_1CD7_76BD_51A5) == 0x3079_F7F8_60EB_366D
    ensures Rotl(0x3079_F7F8_60EB_366D, 11) == 0xCFBF_C307_59B3_6983
    ensures Mul(0xCFBF_C307_59B3_6983, C1) == 0x0E6D_11BD_C91F_0215
    ensures Mul(Wide(98), C5) == 0x3F82_0806_8D13_B96A
    ensures Xor(0x0E6D_11BD_C91F_0215, 0x3F82_0806_8D13_B96A) == 0x31EF_19BB_440C_BB7F
    ensures Rotl(0x31EF_19BB_440C_BB7F, 11) == 0x78CD_DA20_65DB_F98F
    ensures Mul(0x78CD_DA20_65DB_F98F, C1) == 0x7919_83E9_AB30_7069
    ensures Mul(Wide(99), C5) == 0x6756_F335_A36A_212F
    ensures Xor(0x7919_83E9_AB30_7069, 0x6756_F335_A36A_212F) == 0x1E4F_70DC_085A_5146
    ensures Rotl(0x1E4F_70DC_085A_5146, 11) == 0x7B86_E042_D28A_30F2
    ensures Mul(0x7B86_E042_D28A_30F2, C1) == 0xE87A_46F8_B9A4_C39E
  {
  }

  lemma BytesMixed()
    ensures Avalanche(0xE87A_46F8_B9A4_C39E) == 0x44BC_2CF5_AD77_0999
  {
  }

  /** The letters abc. */
  lemma BytesValue()
    ensures Hash(0, [97, 98, 99]) == 0x44BC_2CF5_AD77_0999
  {
    hide Add, Mul, Xor, Rotl, Wide, Avalanche;
    BytesFacts();
    BytesMixed();
    var s: seq<bv8> := [97, 98, 99];
    assert Tail(0xE87A_46F8_B9A4_C39E, s, 3) == 0xE87A_46F8_B9A4_C39E;
    assert Tail(0x7919_83E9_AB30_7069, s, 2) == 0xE87A_46F8_B9A4_C39E;
    assert Tail(0x0E6D_11BD_C91F_0215, s, 1) == 0xE87A_46F8_B9A4_C39E;
  }

  // ----- a word and a half word ------------------------------------------------------------------------

  lemma WordFacts()
    ensures Add(0, C5) == 0x27D4_EB2F_1656_67C5 && Add(0x27D4_EB2F_1656_67C5, 12) == 0x27D4_EB2F_1656_67D1
    ensures Mul(0x6867_6665_6463_6261, C2) == 0xC328_51D8_754E_66EF
    ensures Rotl(0xC328_51D8_754E_66EF, 31) == 0x3AA7_3377_E194_28EC
    ensures Mul(0x3AA7_3377_E194_28EC, C1) == 0xD582_9FA7_0A0F_CC74
    ensures Xor(0x27D4_EB2F_1656_67D1, 0xD582_9FA7_0A0F_CC74) == 0xF256_7488_1C59_ABA5
    ensures Rotl(0xF256_7488_1C59_ABA5, 27) == 0x40E2_CD5D_2F92_B3A4
    ensures Mul(0x40E2_CD5D_2F92_B3A4, C1) == 0x277A_6F10_F3A8_237C
    ensures Add(0x277A_6F10_F3A8_237C, C4) == 0xAD66_3988_B65A_D1DF
    ensures Mul(0x0000_0000_6C6B_6A69, C1) == 0x9ED6_DE42_29FE_F75F
    ensures Xor(0xAD66_3988_B65A_D1DF, 0x9ED6_DE42_29FE_F75F) == 0x33B0_E7CA_9FA4_2680
    ensures Rotl(0x33B0_E7CA_9FA4_2680, 23) == 0xE54F_D213_4019_D873
    ensures Mul(0xE54F_D213_4019_D873, C2) == 0x6D6B_4290_45E7_5C7D
    ensures Add(0x6D6B_4290_45E7_5C7D, C3) == 0x83C1_AA41_E41E_D676
  {
  }

  lemma WordMixed()
    ensures Avalanche(0x83C1_AA41_E41E_D676) == 0x4B09_B7D3_A233_D4B3
  {
  }

  lemma WordLoaded(s: seq<bv8>)
    requires s == [97, 98, 99, 100, 101, 102, 103, 104, 105, 106, 107, 108]
    ensures Load8(s, 0) == 0x6867_6665_6463_6261 && Load4(s, 8) == 0x0000_0000_6C6B_6A69
  {
  }

  /** The letters a to l. */
  lemma WordValue()
    ensures Hash(0, [97, 98, 99, 100, 101, 102, 103, 104, 105, 106, 107, 108]) == 0x4B09_B7D3_A233_D4B3
  {
    hide Add, Mul, Xor, Rotl, Avalanche, Load8, Load4;
    WordFacts();
    WordMixed();
    var s: seq<bv8> := [97, 98, 99, 100, 101, 102, 103, 104, 105, 106, 107, 108];
    WordLoaded(s);
    assert Words(0xAD66_3988_B65A_D1DF, s, 8) == 0xAD66_3988_B65A_D1DF;
    assert Words(0x27D4_EB2F_1656_67D1, s, 0) == 0xAD66_3988_B65A_D1DF;
    assert WordsEnd(8, 12) == 8;
    assert Tail(0x83C1_AA41_E41E_D676, s, 12) == 0x83C1_AA41_E41E_D676;
  }

  // ----- a stripe ------------------------------------------------------------------------------------------

  lemma StartFacts()
    ensures Add(C1, C2) == 0x60EA_27EE_ADC0_B5D6
    ensures Add(0x0000_0000_0000_0000, 0x60EA_27EE_ADC0_B5D6) == 0x60EA_27EE_ADC0_B5D6
    ensures Add(0x0000_0000_0000_0000, C2) == 0xC2B2_AE3D_27D4_EB4F
    ensures Sub(0x0000_0000_0000_0000, C1) == 0x61C8_864E_7A14_3579
  {
  }

  lemma RoundFacts()
    ensures Mul(0x0706_0504_0302_0100, C2) == 0x3B66_43CF_9889_4F00
    ensures Add(0x60EA_27EE_ADC0_B5D6, 0x3B66_43CF_9889_4F00) == 0x9C50_6BBE_464A_04D6
    ensures Rotl(0x9C50_6BBE_464A_04D6, 31) == 0x2325_026B_4E28_35DF
    ensures Mul(0x2325_026B_4E28_35DF, C1) == 0xF4B5_3B57_406B_5E99
    ensures Mul(0x0F0E_0D0C_0B0A_0908, C2) == 0xFA0F_5771_5103_2178
    ensures Add(0xC2B2_AE3D_27D4_EB4F, 0xFA0F_5771_5103_2178) == 0xBCC2_05AE_78D8_0CC7
    ensures Rotl(0xBCC2_05AE_78D8_0CC7, 31) == 0x3C6C_0663_DE61_02D7
    ensures Mul(0x3C6C_0663_DE61_02D7, C1) == 0xC3D3_4B51_1FC3_2561
    ensures Mul(0x1716_1514_1312_1110, C2) == 0xB8B8_6B13_097C_F3F0
    ensures Add(0x0000_0000_0000_0000, 0xB8B8_6B13_097C_F3F0) == 0xB8B8_6B13_097C_F3F0
    ensures Rotl(0xB8B8_6B13_097C_F3F0, 31) == 0x84BE_79F8_5C5C_3589
    ensures Mul(0x84BE_79F8_5C5C_3589, C1) == 0xCB26_C007_C8A1_553F
    ensures Mul(0x1F1E_1D1C_1B1A_1918, C2) == 0x7761_7EB4_C1F6_C668
    ensures Add(0x61C8_864E_7A14_3579, 0x7761_7EB4_C1F6_C668) == 0xD92A_0503_3C0A_FBE1
    ensures Rotl(0xD92A_0503_3C0A_FBE1, 31) == 0x9E05_7DF0_EC95_0281
    ensures Mul(0x9E05_7DF0_EC95_0281, C1) == 0x9A44_D001_A7F9_1C07
  {
  }

  lemma FoldFacts()
    ensures Rotl(0xF4B5_3B57_406B_5E99, 1) == 0xE96A_76AE_80D6_BD33
    ensures Rotl(0xC3D3_4B51_1FC3_2561, 7) == 0xE9A5_A88F_E192_B0E1
    ensures Rotl(0xCB26_C007_C8A1_553F, 12) == 0x6C00_7C8A_1553_FCB2
    ensures Rotl(0x9A44_D001_A7F9_1C07, 18) == 0x4006_9FE4_701E_6913
    ensures Add(0xE96A_76AE_80D6_BD33, 0xE9A5_A88F_E192_B0E1) == 0xD310_1F3E_6269_6E14
    ensures Add(0xD310_1F3E_6269_6E14, 0x6C00_7C8A_1553_FCB2) == 0x3F10_9BC8_77BD_6AC6
    ensures Add(0x3F10_9BC8_77BD_6AC6, 0x4006_9FE4_701E_6913) == 0x7F17_3BAC_E7DB_D3D9
  {
  }

  lemma MergeFacts()
    ensures Mul(0xF4B5_3B57_406B_5E99, C2) == 0x5CBB_A4D8_16AC_A437
    ensures Rotl(0x5CBB_A4D8_16AC_A437, 31) == 0x0B56_521B_AE5D_D26C
    ensures Mul(0x0B56_521B_AE5D_D26C, C1) == 0x9CD6_7B4D_40A7_2EF4
    ensures Xor(0x7F17_3BAC_E7DB_D3D9, 0x9CD6_7B4D_40A7_2EF4) == 0xE3C1_40E1_A77C_FD2D
    ensures Mul(0xE3C1_40E1_A77C_FD2D, C1) == 0x6F04_4589_BBFE_04BB
    ensures Add(0x6F04_4589_BBFE_04BB, C4) == 0xF4F0_1001_7EB0_B31E
    ensures Mul(0xC3D3_4B51_1FC3_2561, C2) == 0xD3B6_949A_ABDC_93EF
    ensures Rotl(0xD3B6_949A_ABDC_93EF, 31) == 0x55EE_49F7_E9DB_4A4D
    ensures Mul(0x55EE_49F7_E9DB_4A4D, C1) == 0xDD60_FE67_90F3_F09B
    ensures Xor(0xF4F0_1001_7EB0_B31E, 0xDD60_FE67_90F3_F09B) == 0x2990_EE66_EE43_4385
    ensures Mul(0x2990_EE66_EE43_4385, C1) == 0xB8CF_2610_CCD6_8D23
    ensures Add(0xB8CF_2610_CCD6_8D23, C4) == 0x3EBA_F088_8F89_3B86
    ensures Mul(0xCB26_C007_C8A1_553F, C2) == 0xF36F_432D_3436_2371
    ensures Rotl(0xF36F_432D_3436_2371, 31) == 0x9A1B_11B8_F9B7_A196
    ensures Mul(0x9A1B_11B8_F9B7_A196, C1) == 0xBD5C_8ED0_D808_921A
    ensures Xor(0x3EBA_F088_8F89_3B86, 0xBD5C_8ED0_D808_921A) == 0x83E6_7E58_5781_A99C
    ensures Mul(0x83E6_7E58_5781_A99C, C1) == 0xD122_07A3_3369_8944
    ensures Add(0xD122_07A3_3369_8944, C4) == 0x570D_D21A_F61C_37A7
    ensures Mul(0x9A44_D001_A7F9_1C07, C2) == 0x6A6A_32EF_C966_1329
    ensures Rotl(0x6A6A_32EF_C966_1329, 31) == 0xE4B3_0994_B535_1977
    ensures Mul(0xE4B3_0994_B535_1977, C1) == 0x3AF1_2CA7_A855_53C1
    ensures Xor(0x570D_D21A_F61C_37A7, 0x3AF1_2CA7_A855_53C1) == 0x6DFC_FEBD_5E49_6466
    ensures Mul(0x6DFC_FEBD_5E49_6466, C1) == 0x425A_1150_C98E_6DCA
    ensures Add(0x425A_1150_C98E_6DCA, C4) == 0xC845_DBC8_8C41_1C2D
    ensures Add(0xC845_DBC8_8C41_1C2D, 0x0000_0000_0000_0020) == 0xC845_DBC8_8C41_1C4D
  {
  }

  lemma StripeMixed()
    ensures Avalanche(0xC845_DBC8_8C41_1C4D) == 0xCBF5_9C51_16FF_32B4
  {
  }

  lemma StripeLoaded(s: seq<bv8>)
    requires |s| == 32 && forall i: nat | i < 32 :: s[i] == i as bv8
    ensures Load8(s, 0) == 0x0706_0504_0302_0100 && Load8(s, 8) == 0x0F0E_0D0C_0B0A_0908
    ensures Load8(s, 16) == 0x1716_1514_1312_1110 && Load8(s, 24) == 0x1F1E_1D1C_1B1A_1918
  {
  }

  lemma StripeDone(s: seq<bv8>)
    requires |s| == 32 && forall i: nat | i < 32 :: s[i] == i as bv8
    ensures Stripe(Start(0), s, 0) == Lanes(0xF4B5_3B57_406B_5E99, 0xC3D3_4B51_1FC3_2561,
                                            0xCB26_C007_C8A1_553F, 0x9A44_D001_A7F9_1C07)
  {
    hide Add, Sub, Mul, Rotl, Load8;
    StartFacts();
    RoundFacts();
    StripeLoaded(s);
  }

  lemma StripeFolded()
    ensures Fold(Lanes(0xF4B5_3B57_406B_5E99, 0xC3D3_4B51_1FC3_2561, 0xCB26_C007_C8A1_553F,
                       0x9A44_D001_A7F9_1C07)) == 0xC845_DBC8_8C41_1C2D
  {
    hide Add, Mul, Xor, Rotl;
    FoldFacts();
    MergeFacts();
  }

  /** The bytes 0 to 31. */
  lemma StripeValue(s: seq<bv8>)
    requires |s| == 32 && forall i: nat | i < 32 :: s[i] == i as bv8
    ensures Hash(0, s) == 0xCBF5_9C51_16FF_32B4
  {
    hide Add, Fold, Stripe, Avalanche, Start;
    StripeDone(s);
    StripeFolded();
    MergeFacts();
    StripeMixed();
    assert Stripes(Stripe(Start(0), s, 0), s, 32) == Stripe(Start(0), s, 0);
  }
}
