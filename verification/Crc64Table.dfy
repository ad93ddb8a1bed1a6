/**
 * The CRC64 of crc64.c as a table driven step, and the division by the reflected
 * Jones polynomial, one bit at a time, that the table stands for.
 */
module Crc64Table {
  /** The reflected polynomial. */
  const POLY: bv64 := 0x95ac_9329_ac4b_c9b5

  function Xor(x: bv64, y: bv64): bv64 {
    x ^ y
  }

  function Half(x: bv64): bv64 {
    x >> 1
  }

  predicate Odd(x: bv64) {
    x & 1 == 1
  }

  /** One bit of the division. */
  function Step(x: bv64): bv64 {
    (x >> 1) ^ (if x & 1 == 1 then POLY else 0)
  }

  function Steps8(x: bv64): bv64 {
    Step(Step(Step(Step(Step(Step(Step(Step(x))))))))
  }

  function Row0(k: bv8): bv64 {
    if k == 0 then 0x0000_0000_0000_0000 else if k == 1 then 0x7ad8_70c8_3035_8979
    else if k == 2 then 0xf5b0_e190_606b_12f2 else if k == 3 then 0x8f68_9158_505e_9b8b
    else if k == 4 then 0xc038_e573_9841_b68f else if k == 5 then 0xbae0_95bb_a874_3ff6
    else if k == 6 then 0x3588_04e3_f82a_a47d else if k == 7 then 0x4f50_742b_c81f_2d04
    else if k == 8 then 0xab28_ecb4_6814_fe75 else if k == 9 then 0xd1f0_9c7c_5821_770c
    else if k == 10 then 0x5e98_0d24_087f_ec87 else if k == 11 then 0x2440_7dec_384a_65fe
    else if k == 12 then 0x6b10_09c7_f055_48fa else if k == 13 then 0x11c8_790f_c060_c183
    else if k == 14 then 0x9ea0_e857_903e_5a08 else 0xe478_989f_a00b_d371
  }

  function Row1(k: bv8): bv64 {
    if k == 0 then 0x7d08_ff3b_88be_6f81 else if k == 1 then 0x07d0_8ff3_b88b_e6f8
    else if k == 2 then 0x88b8_1eab_e8d5_7d73 else if k == 3 then 0xf260_6e63_d8e0_f40a
    else if k == 4 then 0xbd30_1a48_10ff_d90e else if k == 5 then 0xc7e8_6a80_20ca_5077
    else if k == 6 then 0x4880_fbd8_7094_cbfc else if k == 7 then 0x3258_8b10_40a1_4285
    else if k == 8 then 0xd620_138f_e0aa_91f4 else if k == 9 then 0xacf8_6347_d09f_188d
    else if k == 10 then 0x2390_f21f_80c1_8306 else if k == 11 then 0x5948_82d7_b0f4_0a7f
    else if k == 12 then 0x1618_f6fc_78eb_277b else if k == 13 then 0x6cc0_8634_48de_ae02
    else if k == 14 then 0xe3a8_176c_1880_3589 else 0x9970_67a4_28b5_bcf0
  }

  function Row2(k: bv8): bv64 {
    if k == 0 then 0xfa11_fe77_117c_df02 else if k == 1 then 0x80c9_8ebf_2149_567b
    else if k == 2 then 0x0fa1_1fe7_7117_cdf0 else if k == 3 then 0x7579_6f2f_4122_4489
    else if k == 4 then 0x3a29_1b04_893d_698d else if k == 5 then 0x40f1_6bcc_b908_e0f4
    else if k == 6 then 0xcf99_fa94_e956_7b7f else if k == 7 then 0xb541_8a5c_d963_f206
    else if k == 8 then 0x5139_12c3_7968_2177 else if k == 9 then 0x2be1_620b_495d_a80e
    else if k == 10 then 0xa489_f353_1903_3385 else if k == 11 then 0xde51_839b_2936_bafc
    else if k == 12 then 0x9101_f7b0_e129_97f8 else if k == 13 then 0xebd9_8778_d11c_1e81
    else if k == 14 then 0x64b1_1620_8142_850a else 0x1e69_66e8_b177_0c73
  }

  function Row3(k: bv8): bv64 {
    if k == 0 then 0x8719_014c_99c2_b083 else if k == 1 then 0xfdc1_7184_a9f7_39fa
    else if k == 2 then 0x72a9_e0dc_f9a9_a271 else if k == 3 then 0x0871_9014_c99c_2b08
    else if k == 4 then 0x4721_e43f_0183_060c else if k == 5 then 0x3df9_94f7_31b6_8f75
    else if k == 6 then 0xb291_05af_61e8_14fe else if k == 7 then 0xc849_7567_51dd_9d87
    else if k == 8 then 0x2c31_edf8_f1d6_4ef6 else if k == 9 then 0x56e9_9d30_c1e3_c78f
    else if k == 10 then 0xd981_0c68_91bd_5c04 else if k == 11 then 0xa359_7ca0_a188_d57d
    else if k == 12 then 0xec09_088b_6997_f879 else if k == 13 then 0x96d1_7843_59a2_7100
    else if k == 14 then 0x19b9_e91b_09fc_ea8b else 0x6361_99d3_39c9_63f2
  }

  function Row4(k: bv8): bv64 {
    if k == 0 then 0xdf7a_dabd_7a6e_2d6f else if k == 1 then 0xa5a2_aa75_4a5b_a416
    else if k == 2 then 0x2aca_3b2d_1a05_3f9d else if k == 3 then 0x5012_4be5_2a30_b6e4
    else if k == 4 then 0x1f42_3fce_e22f_9be0 else if k == 5 then 0x659a_4f06_d21a_1299
    else if k == 6 then 0xeaf2_de5e_8244_8912 else if k == 7 then 0x902a_ae96_b271_006b
    else if k == 8 then 0x7452_3609_127a_d31a else if k == 9 then 0x0e8a_46c1_224f_5a63
    else if k == 10 then 0x81e2_d799_7211_c1e8 else if k == 11 then 0xfb3a_a751_4224_4891
    else if k == 12 then 0xb46a_d37a_8a3b_6595 else if k == 13 then 0xceb2_a3b2_ba0e_ecec
    else if k == 14 then 0x41da_32ea_ea50_7767 else 0x3b02_4222_da65_fe1e
  }

  function Row5(k: bv8): bv64 {
    if k == 0 then 0xa272_2586_f2d0_42ee else if k == 1 then 0xd8aa_554e_c2e5_cb97
    else if k == 2 then 0x57c2_c416_92bb_501c else if k == 3 then 0x2d1a_b4de_a28e_d965
    else if k == 4 then 0x624a_c0f5_6a91_f461 else if k == 5 then 0x1892_b03d_5aa4_7d18
    else if k == 6 then 0x97fa_2165_0afa_e693 else if k == 7 then 0xed22_51ad_3acf_6fea
    else if k == 8 then 0x095a_c932_9ac4_bc9b else if k == 9 then 0x7382_b9fa_aaf1_35e2
    else if k == 10 then 0xfcea_28a2_faaf_ae69 else if k == 11 then 0x8632_586a_ca9a_2710
    else if k == 12 then 0xc962_2c41_0285_0a14 else if k == 13 then 0xb3ba_5c89_32b0_836d
    else if k == 14 then 0x3cd2_cdd1_62ee_18e6 else 0x460a_bd19_52db_919f
  }

  function Row6(k: bv8): bv64 {
    if k == 0 then 0x256b_24ca_6b12_f26d else if k == 1 then 0x5fb3_5402_5b27_7b14
    else if k == 2 then 0xd0db_c55a_0b79_e09f else if k == 3 then 0xaa03_b592_3b4c_69e6
    else if k == 4 then 0xe553_c1b9_f353_44e2 else if k == 5 then 0x9f8b_b171_c366_cd9b
    else if k == 6 then 0x10e3_2029_9338_5610 else if k == 7 then 0x6a3b_50e1_a30d_df69
    else if k == 8 then 0x8e43_c87e_0306_0c18 else if k == 9 then 0xf49b_b8b6_3333_8561
    else if k == 10 then 0x7bf3_29ee_636d_1eea else if k == 11 then 0x012b_5926_5358_9793
    else if k == 12 then 0x4e7b_2d0d_9b47_ba97 else if k == 13 then 0x34a3_5dc5_ab72_33ee
    else if k == 14 then 0xbbcb_cc9d_fb2c_a865 else 0xc113_bc55_cb19_211c
  }

  function Row7(k: bv8): bv64 {
    if k == 0 then 0x5863_dbf1_e3ac_9dec else if k == 1 then 0x22bb_ab39_d399_1495
    else if k == 2 then 0xadd3_3a61_83c7_8f1e else if k == 3 then 0xd70b_4aa9_b3f2_0667
    else if k == 4 then 0x985b_3e82_7bed_2b63 else if k == 5 then 0xe283_4e4a_4bd8_a21a
    else if k == 6 then 0x6deb_df12_1b86_3991 else if k == 7 then 0x1733_afda_2bb3_b0e8
    else if k == 8 then 0xf34b_3745_8bb8_6399 else if k == 9 then 0x8993_478d_bb8d_eae0
    else if k == 10 then 0x06fb_d6d5_ebd3_716b else if k == 11 then 0x7c23_a61d_dbe6_f812
    else if k == 12 then 0x3373_d236_13f9_d516 else if k == 13 then 0x49ab_a2fe_23cc_5c6f
    else if k == 14 then 0xc6c3_33a6_7392_c7e4 else 0xbc1b_436e_43a7_4e9d
  }

  function Row8(k: bv8): bv64 {
    if k == 0 then 0x95ac_9329_ac4b_c9b5 else if k == 1 then 0xef74_e3e1_9c7e_40cc
    else if k == 2 then 0x601c_72b9_cc20_db47 else if k == 3 then 0x1ac4_0271_fc15_523e
    else if k == 4 then 0x5594_765a_340a_7f3a else if k == 5 then 0x2f4c_0692_043f_f643
    else if k == 6 then 0xa024_97ca_5461_6dc8 else if k == 7 then 0xdafc_e702_6454_e4b1
    else if k == 8 then 0x3e84_7f9d_c45f_37c0 else if k == 9 then 0x445c_0f55_f46a_beb9
    else if k == 10 then 0xcb34_9e0d_a434_2532 else if k == 11 then 0xb1ec_eec5_9401_ac4b
    else if k == 12 then 0xfebc_9aee_5c1e_814f else if k == 13 then 0x8464_ea26_6c2b_0836
    else if k == 14 then 0x0b0c_7b7e_3c75_93bd else 0x71d4_0bb6_0c40_1ac4
  }

  function Row9(k: bv8): bv64 {
    if k == 0 then 0xe8a4_6c12_24f5_a634 else if k == 1 then 0x927c_1cda_14c0_2f4d
    else if k == 2 then 0x1d14_8d82_449e_b4c6 else if k == 3 then 0x67cc_fd4a_74ab_3dbf
    else if k == 4 then 0x289c_8961_bcb4_10bb else if k == 5 then 0x5244_f9a9_8c81_99c2
    else if k == 6 then 0xdd2c_68f1_dcdf_0249 else if k == 7 then 0xa7f4_1839_ecea_8b30
    else if k == 8 then 0x438c_80a6_4ce1_5841 else if k == 9 then 0x3954_f06e_7cd4_d138
    else if k == 10 then 0xb63c_6136_2c8a_4ab3 else if k == 11 then 0xcce4_11fe_1cbf_c3ca
    else if k == 12 then 0x83b4_65d5_d4a0_eece else if k == 13 then 0xf96c_151d_e495_67b7
    else if k == 14 then 0x7604_8445_b4cb_fc3c else 0x0cdc_f48d_84fe_7545
  }

  function RowA(k: bv8): bv64 {
    if k == 0 then 0x6fbd_6d5e_bd37_16b7 else if k == 1 then 0x1565_1d96_8d02_9fce
    else if k == 2 then 0x9a0d_8cce_dd5c_0445 else if k == 3 then 0xe0d5_fc06_ed69_8d3c
    else if k == 4 then 0xaf85_882d_2576_a038 else if k == 5 then 0xd55d_f8e5_1543_2941
    else if k == 6 then 0x5a35_69bd_451d_b2ca else if k == 7 then 0x20ed_1975_7528_3bb3
    else if k == 8 then 0xc495_81ea_d523_e8c2 else if k == 9 then 0xbe4d_f122_e516_61bb
    else if k == 10 then 0x3125_607a_b548_fa30 else if k == 11 then 0x4bfd_10b2_857d_7349
    else if k == 12 then 0x04ad_6499_4d62_5e4d else if k == 13 then 0x7e75_1451_7d57_d734
    else if k == 14 then 0xf11d_8509_2d09_4cbf else 0x8bc5_f5c1_1d3c_c5c6
  }

  function RowB(k: bv8): bv64 {
    if k == 0 then 0x12b5_9265_3589_7936 else if k == 1 then 0x686d_e2ad_05bc_f04f
    else if k == 2 then 0xe705_73f5_55e2_6bc4 else if k == 3 then 0x9ddd_033d_65d7_e2bd
    else if k == 4 then 0xd28d_7716_adc8_cfb9 else if k == 5 then 0xa855_07de_9dfd_46c0
    else if k == 6 then 0x273d_9686_cda3_dd4b else if k == 7 then 0x5de5_e64e_fd96_5432
    else if k == 8 then 0xb99d_7ed1_5d9d_8743 else if k == 9 then 0xc345_0e19_6da8_0e3a
    else if k == 10 then 0x4c2d_9f41_3df6_95b1 else if k == 11 then 0x36f5_ef89_0dc3_1cc8
    else if k == 12 then 0x79a5_9ba2_c5dc_31cc else if k == 13 then 0x037d_eb6a_f5e9_b8b5
    else if k == 14 then 0x8c15_7a32_a5b7_233e else 0xf6cd_0afa_9582_aa47
  }

  function RowC(k: bv8): bv64 {
    if k == 0 then 0x4ad6_4994_d625_e4da else if k == 1 then 0x300e_395c_e610_6da3
    else if k == 2 then 0xbf66_a804_b64e_f628 else if k == 3 then 0xc5be_d8cc_867b_7f51
    else if k == 4 then 0x8aee_ace7_4e64_5255 else if k == 5 then 0xf036_dc2f_7e51_db2c
    else if k == 6 then 0x7f5e_4d77_2e0f_40a7 else if k == 7 then 0x0586_3dbf_1e3a_c9de
    else if k == 8 then 0xe1fe_a520_be31_1aaf else if k == 9 then 0x9b26_d5e8_8e04_93d6
    else if k == 10 then 0x144e_44b0_de5a_085d else if k == 11 then 0x6e96_3478_ee6f_8124
    else if k == 12 then 0x21c6_4053_2670_ac20 else if k == 13 then 0x5b1e_309b_1645_2559
    else if k == 14 then 0xd476_a1c3_461b_bed2 else 0xaeae_d10b_762e_37ab
  }

  function RowD(k: bv8): bv64 {
    if k == 0 then 0x37de_b6af_5e9b_8b5b else if k == 1 then 0x4d06_c667_6eae_0222
    else if k == 2 then 0xc26e_573f_3ef0_99a9 else if k == 3 then 0xb8b6_27f7_0ec5_10d0
    else if k == 4 then 0xf7e6_53dc_c6da_3dd4 else if k == 5 then 0x8d3e_2314_f6ef_b4ad
    else if k == 6 then 0x0256_b24c_a6b1_2f26 else if k == 7 then 0x788e_c284_9684_a65f
    else if k == 8 then 0x9cf6_5a1b_368f_752e else if k == 9 then 0xe62e_2ad3_06ba_fc57
    else if k == 10 then 0x6946_bb8b_56e4_67dc else if k == 11 then 0x139e_cb43_66d1_eea5
    else if k == 12 then 0x5cce_bf68_aece_c3a1 else if k == 13 then 0x2616_cfa0_9efb_4ad8
    else if k == 14 then 0xa97e_5ef8_cea5_d153 else 0xd3a6_2e30_fe90_582a
  }

  function RowE(k: bv8): bv64 {
    if k == 0 then 0xb0c7_b7e3_c759_3bd8 else if k == 1 then 0xca1f_c72b_f76c_b2a1
    else if k == 2 then 0x4577_5673_a732_292a else if k == 3 then 0x3faf_26bb_9707_a053
    else if k == 4 then 0x70ff_5290_5f18_8d57 else if k == 5 then 0x0a27_2258_6f2d_042e
    else if k == 6 then 0x854f_b300_3f73_9fa5 else if k == 7 then 0xff97_c3c8_0f46_16dc
    else if k == 8 then 0x1bef_5b57_af4d_c5ad else if k == 9 then 0x6137_2b9f_9f78_4cd4
    else if k == 10 then 0xee5f_bac7_cf26_d75f else if k == 11 then 0x9487_ca0f_ff13_5e26
    else if k == 12 then 0xdbd7_be24_370c_7322 else if k == 13 then 0xa10f_ceec_0739_fa5b
    else if k == 14 then 0x2e67_5fb4_5767_61d0 else 0x54bf_2f7c_6752_e8a9
  }

  function RowF(k: bv8): bv64 {
    if k == 0 then 0xcdcf_48d8_4fe7_5459 else if k == 1 then 0xb717_3810_7fd2_dd20
    else if k == 2 then 0x387f_a948_2f8c_46ab else if k == 3 then 0x42a7_d980_1fb9_cfd2
    else if k == 4 then 0x0df7_adab_d7a6_e2d6 else if k == 5 then 0x772f_dd63_e793_6baf
    else if k == 6 then 0xf847_4c3b_b7cd_f024 else if k == 7 then 0x829f_3cf3_87f8_795d
    else if k == 8 then 0x66e7_a46c_27f3_aa2c else if k == 9 then 0x1c3f_d4a4_17c6_2355
    else if k == 10 then 0x9357_45fc_4798_b8de else if k == 11 then 0xe98f_3534_77ad_31a7
    else if k == 12 then 0xa6df_411f_bfb2_1ca3 else if k == 13 then 0xdc07_31d7_8f87_95da
    else if k == 14 then 0x536f_a08f_dfd9_0e51 else 0x29b7_d047_efec_8728
  }

  function RowOf(row: bv8, k: bv8): bv64 {
    if row < 4 then (if row == 0 then Row0(k) else if row == 1 then Row1(k)
      else if row == 2 then Row2(k) else Row3(k))
    else if row < 8 then (if row == 4 then Row4(k) else if row == 5 then Row5(k)
      else if row == 6 then Row6(k) else Row7(k))
    else if row < 12 then (if row == 8 then Row8(k) else if row == 9 then Row9(k)
      else if row == 10 then RowA(k) else RowB(k))
    else (if row == 12 then RowC(k) else if row == 13 then RowD(k)
      else if row == 14 then RowE(k) else RowF(k))
  }

  /** crc64_tab. */
  function Table(i: bv8): bv64 {
    RowOf(i >> 4, i & 0xf)
  }

  // ---------------------------------------------------------------------
  // One bit
  // ---------------------------------------------------------------------

  /** The inverse of one bit of the division: the top bit tells what was shifted out. */
  function StepBack(y: bv64): bv64 {
    if y & 0x8000_0000_0000_0000 != 0 then ((y ^ POLY) << 1) | 1 else y << 1
  }

  lemma StepParts(x: bv64)
    ensures Step(x) == if Odd(x) then Xor(Half(x), POLY) else Half(x)
  {
  }

  lemma StepThenBack(x: bv64)
    ensures StepBack(Step(x)) == x
  {
  }

  lemma BackOfOdd(y: bv64)
    requires y & 0x8000_0000_0000_0000 != 0
    ensures var x := ((y ^ POLY) << 1) | 1; Odd(x) && Xor(Half(x), POLY) == y
  {
  }

  lemma BackOfEven(y: bv64)
    requires y & 0x8000_0000_0000_0000 == 0
    ensures !Odd(y << 1) && Half(y << 1) == y
  {
  }

  lemma BackThenStep(y: bv64)
    ensures Step(StepBack(y)) == y
  {
    hide Xor, Half, Odd, Step;
    StepParts(StepBack(y));
    if y & 0x8000_0000_0000_0000 != 0 { BackOfOdd(y); } else { BackOfEven(y); }
  }

  lemma HalfOfXor(x: bv64, y: bv64)
    ensures Half(Xor(x, y)) == Xor(Half(x), Half(y))
    ensures Odd(Xor(x, y)) <==> Odd(x) != Odd(y)
  {
  }

  lemma XorLaws(a: bv64, b: bv64, p: bv64)
    ensures Xor(Xor(a, p), b) == Xor(Xor(a, b), p) == Xor(a, Xor(b, p))
    ensures Xor(Xor(a, p), Xor(b, p)) == Xor(a, b)
  {
  }

  lemma StepIsLinear(x: bv64, y: bv64)
    ensures Step(Xor(x, y)) == Xor(Step(x), Step(y))
  {
    hide Xor, Half, Odd, Step;
    StepParts(x);
    StepParts(y);
    StepParts(Xor(x, y));
    HalfOfXor(x, y);
    XorLaws(Half(x), Half(y), POLY);
  }

  // ---------------------------------------------------------------------
  // Eight bits
  // ---------------------------------------------------------------------

  function StepsBack8(y: bv64): bv64 {
    StepBack(StepBack(StepBack(StepBack(StepBack(StepBack(StepBack(StepBack(y))))))))
  }

  /** Eight bits of the division are a bijection on the 64 bit states. */
  lemma StepsAreBijective(x: bv64)
    ensures StepsBack8(Steps8(x)) == x && Steps8(StepsBack8(x)) == x
  {
    hide Step, StepBack;
    var x1 := Step(x); var x2 := Step(x1); var x3 := Step(x2); var x4 := Step(x3);
    var x5 := Step(x4); var x6 := Step(x5); var x7 := Step(x6);
    StepThenBack(x); StepThenBack(x1); StepThenBack(x2); StepThenBack(x3);
    StepThenBack(x4); StepThenBack(x5); StepThenBack(x6); StepThenBack(x7);
    var y1 := StepBack(x); var y2 := StepBack(y1); var y3 := StepBack(y2); var y4 := StepBack(y3);
    var y5 := StepBack(y4); var y6 := StepBack(y5); var y7 := StepBack(y6);
    BackThenStep(x); BackThenStep(y1); BackThenStep(y2); BackThenStep(y3);
    BackThenStep(y4); BackThenStep(y5); BackThenStep(y6); BackThenStep(y7);
  }

  lemma StepsAreLinear(x: bv64, y: bv64)
    ensures Steps8(Xor(x, y)) == Xor(Steps8(x), Steps8(y))
  {
    hide Step, Xor;
    var x1 := Step(x); var x2 := Step(x1); var x3 := Step(x2); var x4 := Step(x3);
    var x5 := Step(x4); var x6 := Step(x5); var x7 := Step(x6);
    var y1 := Step(y); var y2 := Step(y1); var y3 := Step(y2); var y4 := Step(y3);
    var y5 := Step(y4); var y6 := Step(y5); var y7 := Step(y6);
    StepIsLinear(x, y); StepIsLinear(x1, y1); StepIsLinear(x2, y2); StepIsLinear(x3, y3);
    StepIsLinear(x4, y4); StepIsLinear(x5, y5); StepIsLinear(x6, y6); StepIsLinear(x7, y7);
  }

  lemma FirstRow(k: bv8)
    requires k < 16
    ensures RowOf(0, k) == Steps8(k as bv64)
  {
  }

  lemma FirstColumn(row: bv8)
    requires row < 16
    ensures RowOf(row, 0) == Steps8((row << 4) as bv64)
  {
  }

  lemma Rows0To3(row: bv8, k: bv8)
    requires 0 <= row < 4 && k < 16
    ensures RowOf(row, k) == Xor(RowOf(0, k), RowOf(row, 0))
  {
  }

  lemma Rows4To7(row: bv8, k: bv8)
    requires 4 <= row < 8 && k < 16
    ensures RowOf(row, k) == Xor(RowOf(0, k), RowOf(row, 0))
  {
  }

  lemma Rows8ToB(row: bv8, k: bv8)
    requires 8 <= row < 12 && k < 16
    ensures RowOf(row, k) == Xor(RowOf(0, k), RowOf(row, 0))
  {
  }

  lemma RowsCToF(row: bv8, k: bv8)
    requires 12 <= row < 16 && k < 16
    ensures RowOf(row, k) == Xor(RowOf(0, k), RowOf(row, 0))
  {
  }

  /** The entries of one row differ from those of the first row by a constant. */
  lemma RowsAreLinear(row: bv8, k: bv8)
    requires row < 16 && k < 16
    ensures RowOf(row, k) == Xor(RowOf(0, k), RowOf(row, 0))
  {
    hide Xor, RowOf;
    if row < 4 {
      Rows0To3(row, k);
    } else if row < 8 {
      Rows4To7(row, k);
    } else if row < 12 {
      Rows8ToB(row, k);
    } else {
      RowsCToF(row, k);
    }
  }

  lemma SplitNibbles(i: bv8)
    ensures i >> 4 < 16 && i & 0xf < 16
    ensures Xor((i & 0xf) as bv64, ((i >> 4) << 4) as bv64) == i as bv64
  {
  }

  /** Every entry of the table is its index divided for eight bits. */
  lemma TableIsStepped(i: bv8)
    ensures Table(i) == Steps8(i as bv64)
  {
    hide RowOf, Row0, Steps8, Xor;
    var row, k := i >> 4, i & 0xf;
    SplitNibbles(i);
    RowsAreLinear(row, k);
    assert RowOf(0, k) == Steps8(k as bv64) by { FirstRow(k); }
    FirstColumn(row);
    StepsAreLinear(k as bv64, (row << 4) as bv64);
  }

  lemma LowByteClear(z: bv64)
    requires z & 0xff == 0
    ensures !Odd(z) && !Odd(Half(z)) && !Odd(Half(Half(z))) && !Odd(Half(Half(Half(z))))
    ensures var h := Half(Half(Half(Half(z))));
      && !Odd(h) && !Odd(Half(h)) && !Odd(Half(Half(h))) && !Odd(Half(Half(Half(h))))
      && Half(Half(Half(Half(h)))) == z >> 8
  {
  }

  /** Eight bits that are all zero are only shifted out. */
  lemma StepsOfHigh(z: bv64)
    requires z & 0xff == 0
    ensures Steps8(z) == z >> 8
  {
    hide Odd, Half, Xor, Step;
    LowByteClear(z);
    var z1 := Half(z); var z2 := Half(z1); var z3 := Half(z2); var z4 := Half(z3);
    var z5 := Half(z4); var z6 := Half(z5); var z7 := Half(z6);
    StepParts(z); StepParts(z1); StepParts(z2); StepParts(z3);
    StepParts(z4); StepParts(z5); StepParts(z6); StepParts(z7);
  }

  // ---------------------------------------------------------------------
  // One byte
  // ---------------------------------------------------------------------

  function LowByte(crc: bv64): bv8 {
    (crc & 0xff) as bv8
  }

  /** The body of the loop of crc64. */
  function CrcByte(crc: bv64, byte: bv8): bv64 {
    Table(LowByte(crc) ^ byte) ^ (crc >> 8)
  }

  lemma SplitBytes(crc: bv64, byte: bv8)
    ensures var low, high := (LowByte(crc) ^ byte) as bv64, crc & !0xff;
      Xor(low, high) == Xor(crc, byte as bv64) && high & 0xff == 0 && high >> 8 == crc >> 8
  {
  }

  /** The table driven step is eight bits of the division of the state with the byte mixed in. */
  lemma CrcByteIsSteps(crc: bv64, byte: bv8)
    ensures CrcByte(crc, byte) == Steps8(Xor(crc, byte as bv64))
  {
    hide Table, Steps8, LowByte;
    var low, high := LowByte(crc) ^ byte, crc & !0xff;
    SplitBytes(crc, byte);
    TableIsStepped(low);
    StepsAreLinear(low as bv64, high);
    StepsOfHigh(high);
  }

  lemma XorSeparates(a: bv64, b: bv64, x: bv8, y: bv8)
    ensures Xor(a, x as bv64) == Xor(b, x as bv64) ==> a == b
    ensures Xor(a, x as bv64) == Xor(a, y as bv64) ==> x == y
  {
  }

  /** One step of the CRC takes different states to different states and tells different bytes apart. */
  lemma CrcByteSeparates(a: bv64, b: bv64, x: bv8, y: bv8)
    ensures CrcByte(a, x) == CrcByte(b, x) <==> a == b
    ensures CrcByte(a, x) == CrcByte(a, y) <==> x == y
  {
    hide CrcByte, Steps8, StepsBack8, Xor;
    CrcByteIsSteps(a, x);
    CrcByteIsSteps(b, x);
    CrcByteIsSteps(a, y);
    StepsAreBijective(Xor(a, x as bv64));
    StepsAreBijective(Xor(b, x as bv64));
    StepsAreBijective(Xor(a, y as bv64));
    XorSeparates(a, b, x, y);
  }
}
