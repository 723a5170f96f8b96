/** The example of lines 14-15 of sha256.c, carried through the specification: the digest of "hello".
 */
module Sha256Example {
  import opened Words
  import opened Sha256Spec

  const HELLO: seq<byte> := [0x68, 0x65, 0x6c, 0x6c, 0x6f]

  /** The one block of the padded message. */
  const BLOCK: Block := HELLO + [0x80] + Zeros(56) + [0, 40]

  lemma OneBlock()
    ensures Pad(HELLO) == BLOCK
  {
    assert PadZeros(5) == 50;
    assert BigEndian(40, 8) == Zeros(7) + [40] by {
      EightBytes();
    }
  }

  lemma EightBytes()
    ensures BigEndian(40, 8) == [0, 0, 0, 0, 0, 0, 0, 40]
  {
    assert BigEndian(0, 1) == [0];
    assert BigEndian(0, 3) == [0, 0, 0];
    assert BigEndian(0, 5) == [0, 0, 0, 0, 0];
    assert BigEndian(0, 7) == [0, 0, 0, 0, 0, 0, 0];
  }

  // ------------------------------------------------------------------
  // The message schedule
  // ------------------------------------------------------------------

  lemma MessageWords(t: nat)
    requires t < 16
    ensures W(BLOCK, t) == match t case 0 => 0x6865_6c6c case 1 => 0x6f80_0000 case 15 => 0x0000_0028 case _ => 0
  {
    hide Word;
    WordOf();
  }

  lemma WordOf()
    ensures Word(0x68, 0x65, 0x6c, 0x6c) == 0x6865_6c6c && Word(0x6f, 0x80, 0, 0) == 0x6f80_0000
    ensures Word(0, 0, 0, 0) == 0 && Word(0, 0, 0, 40) == 40
  {
  }

  lemma NextWord(t: nat, w2: bv32, w7: bv32, w15: bv32, w16: bv32, w: bv32)
    requires t >= 16 && W(BLOCK, t - 2) == w2 && W(BLOCK, t - 7) == w7
    requires W(BLOCK, t - 15) == w15 && W(BLOCK, t - 16) == w16 && Schedule(w2, w7, w15, w16) == w
    ensures W(BLOCK, t) == w
  {
    hide Schedule;
  }

  lemma Words2()
    ensures W(BLOCK, 16) == 0x7594_884c && W(BLOCK, 17) == 0x6f91_0000
    ensures W(BLOCK, 18) == 0xd532_d15a && W(BLOCK, 19) == 0xa01b_de7a
    ensures W(BLOCK, 20) == 0x32b3_7c8b && W(BLOCK, 21) == 0x94da_02f9
    ensures W(BLOCK, 22) == 0xd1d8_53f8 && W(BLOCK, 23) == 0xb69b_56c2
  {
    hide W;
    MessageWords(0);
    MessageWords(1);
    MessageWords(2);
    MessageWords(3);
    MessageWords(4);
    MessageWords(5);
    MessageWords(6);
    MessageWords(7);
    MessageWords(8);
    MessageWords(9);
    MessageWords(10);
    MessageWords(11);
    MessageWords(12);
    MessageWords(13);
    MessageWords(14);
    MessageWords(15);
    NextWord(16, 0x0000_0000, 0x0000_0000, 0x6f80_0000, 0x6865_6c6c, 0x7594_884c);
    NextWord(17, 0x0000_0028, 0x0000_0000, 0x0000_0000, 0x6f80_0000, 0x6f91_0000);
    NextWord(18, 0x7594_884c, 0x0000_0000, 0x0000_0000, 0x0000_0000, 0xd532_d15a);
    NextWord(19, 0x6f91_0000, 0x0000_0000, 0x0000_0000, 0x0000_0000, 0xa01b_de7a);
    NextWord(20, 0xd532_d15a, 0x0000_0000, 0x0000_0000, 0x0000_0000, 0x32b3_7c8b);
    NextWord(21, 0xa01b_de7a, 0x0000_0000, 0x0000_0000, 0x0000_0000, 0x94da_02f9);
    NextWord(22, 0x32b3_7c8b, 0x0000_0028, 0x0000_0000, 0x0000_0000, 0xd1d8_53f8);
    NextWord(23, 0x94da_02f9, 0x7594_884c, 0x0000_0000, 0x0000_0000, 0xb69b_56c2);
  }

  lemma Words3()
    ensures W(BLOCK, 24) == 0x9348_04c3 && W(BLOCK, 25) == 0x96c7_7ca5
    ensures W(BLOCK, 26) == 0xa2f9_4846 && W(BLOCK, 27) == 0x8497_44ef
    ensures W(BLOCK, 28) == 0x21dd_3e6a && W(BLOCK, 29) == 0x1ca3_6b00
    ensures W(BLOCK, 30) == 0x3f95_7a61 && W(BLOCK, 31) == 0x2079_cf86
  {
    hide W;
    MessageWords(8);
    MessageWords(9);
    MessageWords(10);
    MessageWords(11);
    MessageWords(12);
    MessageWords(13);
    MessageWords(14);
    MessageWords(15);
    Words2();
    NextWord(24, 0xd1d8_53f8, 0x6f91_0000, 0x0000_0000, 0x0000_0000, 0x9348_04c3);
    NextWord(25, 0xb69b_56c2, 0xd532_d15a, 0x0000_0000, 0x0000_0000, 0x96c7_7ca5);
    NextWord(26, 0x9348_04c3, 0xa01b_de7a, 0x0000_0000, 0x0000_0000, 0xa2f9_4846);
    NextWord(27, 0x96c7_7ca5, 0x32b3_7c8b, 0x0000_0000, 0x0000_0000, 0x8497_44ef);
    NextWord(28, 0xa2f9_4846, 0x94da_02f9, 0x0000_0000, 0x0000_0000, 0x21dd_3e6a);
    NextWord(29, 0x8497_44ef, 0xd1d8_53f8, 0x0000_0000, 0x0000_0000, 0x1ca3_6b00);
    NextWord(30, 0x21dd_3e6a, 0xb69b_56c2, 0x0000_0028, 0x0000_0000, 0x3f95_7a61);
    NextWord(31, 0x1ca3_6b00, 0x9348_04c3, 0x7594_884c, 0x0000_0028, 0x2079_cf86);
  }

  lemma Words4()
    ensures W(BLOCK, 32) == 0x6bfc_7c3b && W(BLOCK, 33) == 0x0c20_9d4b
    ensures W(BLOCK, 34) == 0x2228_225c && W(BLOCK, 35) == 0xee1a_d25b
    ensures W(BLOCK, 36) == 0xc5d0_9850 && W(BLOCK, 37) == 0x0733_1882
    ensures W(BLOCK, 38) == 0x9774_23c5 && W(BLOCK, 39) == 0xa667_d6f9
  {
    hide W;
    Words3();
    Words2();
    NextWord(32, 0x3f95_7a61, 0x96c7_7ca5, 0x6f91_0000, 0x7594_884c, 0x6bfc_7c3b);
    NextWord(33, 0x2079_cf86, 0xa2f9_4846, 0xd532_d15a, 0x6f91_0000, 0x0c20_9d4b);
    NextWord(34, 0x6bfc_7c3b, 0x8497_44ef, 0xa01b_de7a, 0xd532_d15a, 0x2228_225c);
    NextWord(35, 0x0c20_9d4b, 0x21dd_3e6a, 0x32b3_7c8b, 0xa01b_de7a, 0xee1a_d25b);
    NextWord(36, 0x2228_225c, 0x1ca3_6b00, 0x94da_02f9, 0x32b3_7c8b, 0xc5d0_9850);
    NextWord(37, 0xee1a_d25b, 0x3f95_7a61, 0xd1d8_53f8, 0x94da_02f9, 0x0733_1882);
    NextWord(38, 0xc5d0_9850, 0x2079_cf86, 0xb69b_56c2, 0xd1d8_53f8, 0x9774_23c5);
    NextWord(39, 0x0733_1882, 0x6bfc_7c3b, 0x9348_04c3, 0xb69b_56c2, 0xa667_d6f9);
  }

  lemma Words5()
    ensures W(BLOCK, 40) == 0xbc04_4b46 && W(BLOCK, 41) == 0x9585_9031
    ensures W(BLOCK, 42) == 0x5c98_ca62 && W(BLOCK, 43) == 0x6486_0c1b
    ensures W(BLOCK, 44) == 0x7ee7_c777 && W(BLOCK, 45) == 0x16c5_5872
    ensures W(BLOCK, 46) == 0x7cf6_7d29 && W(BLOCK, 47) == 0x4857_c138
  {
    hide W;
    Words4();
    Words3();
    NextWord(40, 0x9774_23c5, 0x0c20_9d4b, 0x96c7_7ca5, 0x9348_04c3, 0xbc04_4b46);
    NextWord(41, 0xa667_d6f9, 0x2228_225c, 0xa2f9_4846, 0x96c7_7ca5, 0x9585_9031);
    NextWord(42, 0xbc04_4b46, 0xee1a_d25b, 0x8497_44ef, 0xa2f9_4846, 0x5c98_ca62);
    NextWord(43, 0x9585_9031, 0xc5d0_9850, 0x21dd_3e6a, 0x8497_44ef, 0x6486_0c1b);
    NextWord(44, 0x5c98_ca62, 0x0733_1882, 0x1ca3_6b00, 0x21dd_3e6a, 0x7ee7_c777);
    NextWord(45, 0x6486_0c1b, 0x9774_23c5, 0x3f95_7a61, 0x1ca3_6b00, 0x16c5_5872);
    NextWord(46, 0x7ee7_c777, 0xa667_d6f9, 0x2079_cf86, 0x3f95_7a61, 0x7cf6_7d29);
    NextWord(47, 0x16c5_5872, 0xbc04_4b46, 0x6bfc_7c3b, 0x2079_cf86, 0x4857_c138);
  }

  lemma Words6()
    ensures W(BLOCK, 48) == 0xa37f_4a81 && W(BLOCK, 49) == 0x35f8_fd03
    ensures W(BLOCK, 50) == 0xf16f_fce2 && W(BLOCK, 51) == 0x6d54_9f9c
    ensures W(BLOCK, 52) == 0xa12f_f314 && W(BLOCK, 53) == 0xf181_8db4
    ensures W(BLOCK, 54) == 0xf9ca_d136 && W(BLOCK, 55) == 0xc960_d70c
  {
    hide W;
    Words5();
    Words4();
    NextWord(48, 0x7cf6_7d29, 0x9585_9031, 0x0c20_9d4b, 0x6bfc_7c3b, 0xa37f_4a81);
    NextWord(49, 0x4857_c138, 0x5c98_ca62, 0x2228_225c, 0x0c20_9d4b, 0x35f8_fd03);
    NextWord(50, 0xa37f_4a81, 0x6486_0c1b, 0xee1a_d25b, 0x2228_225c, 0xf16f_fce2);
    NextWord(51, 0x35f8_fd03, 0x7ee7_c777, 0xc5d0_9850, 0xee1a_d25b, 0x6d54_9f9c);
    NextWord(52, 0xf16f_fce2, 0x16c5_5872, 0x0733_1882, 0xc5d0_9850, 0xa12f_f314);
    NextWord(53, 0x6d54_9f9c, 0x7cf6_7d29, 0x9774_23c5, 0x0733_1882, 0xf181_8db4);
    NextWord(54, 0xa12f_f314, 0x4857_c138, 0xa667_d6f9, 0x9774_23c5, 0xf9ca_d136);
    NextWord(55, 0xf181_8db4, 0xa37f_4a81, 0xbc04_4b46, 0xa667_d6f9, 0xc960_d70c);
  }

  lemma Words7()
    ensures W(BLOCK, 56) == 0x3a18_f5f8 && W(BLOCK, 57) == 0xf5fd_f2ba
    ensures W(BLOCK, 58) == 0xe79a_1b2a && W(BLOCK, 59) == 0x5dea_4345
    ensures W(BLOCK, 60) == 0x701c_c2f2 && W(BLOCK, 61) == 0x3c9b_25e2
    ensures W(BLOCK, 62) == 0xc967_0b22 && W(BLOCK, 63) == 0x3e3c_b561
  {
    hide W;
    Words6();
    Words5();
    NextWord(56, 0xf9ca_d136, 0x35f8_fd03, 0x9585_9031, 0xbc04_4b46, 0x3a18_f5f8);
    NextWord(57, 0xc960_d70c, 0xf16f_fce2, 0x5c98_ca62, 0x9585_9031, 0xf5fd_f2ba);
    NextWord(58, 0x3a18_f5f8, 0x6d54_9f9c, 0x6486_0c1b, 0x5c98_ca62, 0xe79a_1b2a);
    NextWord(59, 0xf5fd_f2ba, 0xa12f_f314, 0x7ee7_c777, 0x6486_0c1b, 0x5dea_4345);
    NextWord(60, 0xe79a_1b2a, 0xf181_8db4, 0x16c5_5872, 0x7ee7_c777, 0x701c_c2f2);
    NextWord(61, 0x5dea_4345, 0xf9ca_d136, 0x7cf6_7d29, 0x16c5_5872, 0x3c9b_25e2);
    NextWord(62, 0x701c_c2f2, 0xc960_d70c, 0x4857_c138, 0x7cf6_7d29, 0xc967_0b22);
    NextWord(63, 0x3c9b_25e2, 0x3a18_f5f8, 0xa37f_4a81, 0x4857_c138, 0x3e3c_b561);
  }

  // ------------------------------------------------------------------
  // The rounds
  // ------------------------------------------------------------------

  lemma AsWord(n: word, b: bv32)
    requires b as int == n
    ensures n as bv32 == b
  {
    assert (b as int) as bv32 == b;
  }

  lemma OneRound(t: nat, v: Vars, k: bv32, w: bv32, a: bv32, e: bv32)
    requires t < 64 && Rounds(Initial(), BLOCK, t) == v && W(BLOCK, t) == w && k as int == K(t)
    requires Round(v, k, w) == Vars(a, v.a, v.b, v.c, e, v.e, v.f, v.g)
    ensures Rounds(Initial(), BLOCK, t + 1) == Vars(a, v.a, v.b, v.c, e, v.e, v.f, v.g)
  {
    hide Round, W, K;
    AsWord(K(t), k);
  }

  lemma Rounds1()
    ensures Rounds(Initial(), BLOCK, 4)
            == Vars(0xa953_1869, 0x46a5_c0f7, 0xa01b_3ad4, 0x646d_f4b9, 0x6e1e_75d2, 0x0fba_db9b, 0x2719_8bd1, 0x012d_4f0e)
  {
    hide W, Rounds, Initial;
    Start();
    MessageWords(0);
    MessageWords(1);
    MessageWords(2);
    MessageWords(3);
    OneRound(0, Vars(0x6a09_e667, 0xbb67_ae85, 0x3c6e_f372, 0xa54f_f53a, 0x510e_527f, 0x9b05_688c, 0x1f83_d9ab, 0x5be0_cd19),
             0x428a_2f98, 0x6865_6c6c, 0x646d_f4b9, 0x012d_4f0e);
    OneRound(1, Vars(0x646d_f4b9, 0x6a09_e667, 0xbb67_ae85, 0x3c6e_f372, 0x012d_4f0e, 0x510e_527f, 0x9b05_688c, 0x1f83_d9ab),
             0x7137_4491, 0x6f80_0000, 0xa01b_3ad4, 0x2719_8bd1);
    OneRound(2, Vars(0xa01b_3ad4, 0x646d_f4b9, 0x6a09_e667, 0xbb67_ae85, 0x2719_8bd1, 0x012d_4f0e, 0x510e_527f, 0x9b05_688c),
             0xb5c0_fbcf, 0x0000_0000, 0x46a5_c0f7, 0x0fba_db9b);
    OneRound(3, Vars(0x46a5_c0f7, 0xa01b_3ad4, 0x646d_f4b9, 0x6a09_e667, 0x0fba_db9b, 0x2719_8bd1, 0x012d_4f0e, 0x510e_527f),
             0xe9b5_dba5, 0x0000_0000, 0xa953_1869, 0x6e1e_75d2);
  }

  lemma Rounds2()
    ensures Rounds(Initial(), BLOCK, 8)
            == Vars(0x5619_fea2, 0x42d8_c3cf, 0x3b47_60cd, 0xcbfa_8346, 0x05cf_37fe, 0x88f0_4d94, 0xcca9_3710, 0xaadd_34e3)
  {
    hide W, Rounds, Initial;
    Rounds1();
    MessageWords(4);
    MessageWords(5);
    MessageWords(6);
    MessageWords(7);
    OneRound(4, Vars(0xa953_1869, 0x46a5_c0f7, 0xa01b_3ad4, 0x646d_f4b9, 0x6e1e_75d2, 0x0fba_db9b, 0x2719_8bd1, 0x012d_4f0e),
             0x3956_c25b, 0x0000_0000, 0xcbfa_8346, 0xaadd_34e3);
    OneRound(5, Vars(0xcbfa_8346, 0xa953_1869, 0x46a5_c0f7, 0xa01b_3ad4, 0xaadd_34e3, 0x6e1e_75d2, 0x0fba_db9b, 0x2719_8bd1),
             0x59f1_11f1, 0x0000_0000, 0x3b47_60cd, 0xcca9_3710);
    OneRound(6, Vars(0x3b47_60cd, 0xcbfa_8346, 0xa953_1869, 0x46a5_c0f7, 0xcca9_3710, 0xaadd_34e3, 0x6e1e_75d2, 0x0fba_db9b),
             0x923f_82a4, 0x0000_0000, 0x42d8_c3cf, 0x88f0_4d94);
    OneRound(7, Vars(0x42d8_c3cf, 0x3b47_60cd, 0xcbfa_8346, 0xa953_1869, 0x88f0_4d94, 0xcca9_3710, 0xaadd_34e3, 0x6e1e_75d2),
             0xab1c_5ed5, 0x0000_0000, 0x5619_fea2, 0x05cf_37fe);
  }

  lemma Rounds3()
    ensures Rounds(Initial(), BLOCK, 10)
            == Vars(0x40a3_21c6, 0x85d9_8858, 0x5619_fea2, 0x42d8_c3cf, 0x2f7d_88fc, 0xf80b_e290, 0x05cf_37fe, 0x88f0_4d94)
  {
    hide W, Rounds, Initial;
    Rounds2();
    MessageWords(8);
    MessageWords(9);
    OneRound(8, Vars(0x5619_fea2, 0x42d8_c3cf, 0x3b47_60cd, 0xcbfa_8346, 0x05cf_37fe, 0x88f0_4d94, 0xcca9_3710, 0xaadd_34e3),
             0xd807_aa98, 0x0000_0000, 0x85d9_8858, 0xf80b_e290);
    OneRound(9, Vars(0x85d9_8858, 0x5619_fea2, 0x42d8_c3cf, 0x3b47_60cd, 0xf80b_e290, 0x05cf_37fe, 0x88f0_4d94, 0xcca9_3710),
             0x1283_5b01, 0x0000_0000, 0x40a3_21c6, 0x2f7d_88fc);
  }

  lemma Rounds4()
    ensures Rounds(Initial(), BLOCK, 12)
            == Vars(0x6870_e01d, 0x7ee1_6f95, 0x40a3_21c6, 0x85d9_8858, 0xd2fb_bbd6, 0x6a82_b638, 0x2f7d_88fc, 0xf80b_e290)
  {
    hide W, Rounds, Initial;
    Rounds3();
    MessageWords(10);
    MessageWords(11);
    OneRound(10, Vars(0x40a3_21c6, 0x85d9_8858, 0x5619_fea2, 0x42d8_c3cf, 0x2f7d_88fc, 0xf80b_e290, 0x05cf_37fe, 0x88f0_4d94),
             0x2431_85be, 0x0000_0000, 0x7ee1_6f95, 0x6a82_b638);
    OneRound(11, Vars(0x7ee1_6f95, 0x40a3_21c6, 0x85d9_8858, 0x5619_fea2, 0x6a82_b638, 0x2f7d_88fc, 0xf80b_e290, 0x05cf_37fe),
             0x550c_7dc3, 0x0000_0000, 0x6870_e01d, 0xd2fb_bbd6);
  }

  lemma Rounds5()
    ensures Rounds(Initial(), BLOCK, 16)
            == Vars(0x55bd_9162, 0x8d78_6e86, 0x9944_9713, 0x38f5_bce3, 0xede9_48a5, 0x8753_8883, 0x611e_a7ce, 0xbc76_d585)
  {
    hide W, Rounds, Initial;
    Rounds4();
    MessageWords(12);
    MessageWords(13);
    MessageWords(14);
    MessageWords(15);
    OneRound(12, Vars(0x6870_e01d, 0x7ee1_6f95, 0x40a3_21c6, 0x85d9_8858, 0xd2fb_bbd6, 0x6a82_b638, 0x2f7d_88fc, 0xf80b_e290),
             0x72be_5d74, 0x0000_0000, 0x38f5_bce3, 0xbc76_d585);
    OneRound(13, Vars(0x38f5_bce3, 0x6870_e01d, 0x7ee1_6f95, 0x40a3_21c6, 0xbc76_d585, 0xd2fb_bbd6, 0x6a82_b638, 0x2f7d_88fc),
             0x80de_b1fe, 0x0000_0000, 0x9944_9713, 0x611e_a7ce);
    OneRound(14, Vars(0x9944_9713, 0x38f5_bce3, 0x6870_e01d, 0x7ee1_6f95, 0x611e_a7ce, 0xbc76_d585, 0xd2fb_bbd6, 0x6a82_b638),
             0x9bdc_06a7, 0x0000_0000, 0x8d78_6e86, 0x8753_8883);
    OneRound(15, Vars(0x8d78_6e86, 0x9944_9713, 0x38f5_bce3, 0x6870_e01d, 0x8753_8883, 0x611e_a7ce, 0xbc76_d585, 0xd2fb_bbd6),
             0xc19b_f174, 0x0000_0028, 0x55bd_9162, 0xede9_48a5);
  }

  lemma Rounds6()
    ensures Rounds(Initial(), BLOCK, 20)
            == Vars(0xf6d6_8629, 0x7084_6845, 0x6342_2d1c, 0x9961_9a3e, 0xcba8_637f, 0x3413_5cb2, 0x6d48_d223, 0x4ca2_7f3d)
  {
    hide W, Rounds, Initial;
    Rounds5();
    Words2();
    OneRound(16, Vars(0x55bd_9162, 0x8d78_6e86, 0x9944_9713, 0x38f5_bce3, 0xede9_48a5, 0x8753_8883, 0x611e_a7ce, 0xbc76_d585),
             0xe49b_69c1, 0x7594_884c, 0x9961_9a3e, 0x4ca2_7f3d);
    OneRound(17, Vars(0x9961_9a3e, 0x55bd_9162, 0x8d78_6e86, 0x9944_9713, 0x4ca2_7f3d, 0xede9_48a5, 0x8753_8883, 0x611e_a7ce),
             0xefbe_4786, 0x6f91_0000, 0x6342_2d1c, 0x6d48_d223);
    OneRound(18, Vars(0x6342_2d1c, 0x9961_9a3e, 0x55bd_9162, 0x8d78_6e86, 0x6d48_d223, 0x4ca2_7f3d, 0xede9_48a5, 0x8753_8883),
             0x0fc1_9dc6, 0xd532_d15a, 0x7084_6845, 0x3413_5cb2);
    OneRound(19, Vars(0x7084_6845, 0x6342_2d1c, 0x9961_9a3e, 0x55bd_9162, 0x3413_5cb2, 0x6d48_d223, 0x4ca2_7f3d, 0xede9_48a5),
             0x240c_a1cc, 0xa01b_de7a, 0xf6d6_8629, 0xcba8_637f);
  }

  lemma Rounds7()
    ensures Rounds(Initial(), BLOCK, 24)
            == Vars(0x159a_7e81, 0xbdf9_ec82, 0xb5e0_0e53, 0xa00f_40bf, 0x29ae_19ff, 0x59db_6c49, 0x579f_cc6d, 0xafc7_fe0b)
  {
    hide W, Rounds, Initial;
    Rounds6();
    Words2();
    OneRound(20, Vars(0xf6d6_8629, 0x7084_6845, 0x6342_2d1c, 0x9961_9a3e, 0xcba8_637f, 0x3413_5cb2, 0x6d48_d223, 0x4ca2_7f3d),
             0x2de9_2c6f, 0x32b3_7c8b, 0xa00f_40bf, 0xafc7_fe0b);
    OneRound(21, Vars(0xa00f_40bf, 0xf6d6_8629, 0x7084_6845, 0x6342_2d1c, 0xafc7_fe0b, 0xcba8_637f, 0x3413_5cb2, 0x6d48_d223),
             0x4a74_84aa, 0x94da_02f9, 0xb5e0_0e53, 0x579f_cc6d);
    OneRound(22, Vars(0xb5e0_0e53, 0xa00f_40bf, 0xf6d6_8629, 0x7084_6845, 0x579f_cc6d, 0xafc7_fe0b, 0xcba8_637f, 0x3413_5cb2),
             0x5cb0_a9dc, 0xd1d8_53f8, 0xbdf9_ec82, 0x59db_6c49);
    OneRound(23, Vars(0xbdf9_ec82, 0xb5e0_0e53, 0xa00f_40bf, 0xf6d6_8629, 0x59db_6c49, 0x579f_cc6d, 0xafc7_fe0b, 0xcba8_637f),
             0x76f9_88da, 0xb69b_56c2, 0x159a_7e81, 0x29ae_19ff);
  }

  lemma Rounds8()
    ensures Rounds(Initial(), BLOCK, 28)
            == Vars(0x00c0_ff8a, 0xbf9f_575e, 0xc876_96cf, 0xddc6_3841, 0xd036_13e9, 0x018a_2bf9, 0x32dd_c14b, 0xef48_d358)
  {
    hide W, Rounds, Initial;
    Rounds7();
    Words3();
    OneRound(24, Vars(0x159a_7e81, 0xbdf9_ec82, 0xb5e0_0e53, 0xa00f_40bf, 0x29ae_19ff, 0x59db_6c49, 0x579f_cc6d, 0xafc7_fe0b),
             0x983e_5152, 0x9348_04c3, 0xddc6_3841, 0xef48_d358);
    OneRound(25, Vars(0xddc6_3841, 0x159a_7e81, 0xbdf9_ec82, 0xb5e0_0e53, 0xef48_d358, 0x29ae_19ff, 0x59db_6c49, 0x579f_cc6d),
             0xa831_c66d, 0x96c7_7ca5, 0xc876_96cf, 0x32dd_c14b);
    OneRound(26, Vars(0xc876_96cf, 0xddc6_3841, 0x159a_7e81, 0xbdf9_ec82, 0x32dd_c14b, 0xef48_d358, 0x29ae_19ff, 0x59db_6c49),
             0xb003_27c8, 0xa2f9_4846, 0xbf9f_575e, 0x018a_2bf9);
    OneRound(27, Vars(0xbf9f_575e, 0xc876_96cf, 0xddc6_3841, 0x159a_7e81, 0x018a_2bf9, 0x32dd_c14b, 0xef48_d358, 0x29ae_19ff),
             0xbf59_7fc7, 0x8497_44ef, 0x00c0_ff8a, 0xd036_13e9);
  }

  lemma Rounds9()
    ensures Rounds(Initial(), BLOCK, 32)
            == Vars(0x033c_17ef, 0xc44c_9f98, 0x0d94_f00c, 0xc4b9_f5b9, 0x3fb4_bb4e, 0xae95_a0dc, 0x163a_cf8e, 0x9a0b_4446)
  {
    hide W, Rounds, Initial;
    Rounds8();
    Words3();
    OneRound(28, Vars(0x00c0_ff8a, 0xbf9f_575e, 0xc876_96cf, 0xddc6_3841, 0xd036_13e9, 0x018a_2bf9, 0x32dd_c14b, 0xef48_d358),
             0xc6e0_0bf3, 0x21dd_3e6a, 0xc4b9_f5b9, 0x9a0b_4446);
    OneRound(29, Vars(0xc4b9_f5b9, 0x00c0_ff8a, 0xbf9f_575e, 0xc876_96cf, 0x9a0b_4446, 0xd036_13e9, 0x018a_2bf9, 0x32dd_c14b),
             0xd5a7_9147, 0x1ca3_6b00, 0x0d94_f00c, 0x163a_cf8e);
    OneRound(30, Vars(0x0d94_f00c, 0xc4b9_f5b9, 0x00c0_ff8a, 0xbf9f_575e, 0x163a_cf8e, 0x9a0b_4446, 0xd036_13e9, 0x018a_2bf9),
             0x06ca_6351, 0x3f95_7a61, 0xc44c_9f98, 0xae95_a0dc);
    OneRound(31, Vars(0xc44c_9f98, 0x0d94_f00c, 0xc4b9_f5b9, 0x00c0_ff8a, 0xae95_a0dc, 0x163a_cf8e, 0x9a0b_4446, 0xd036_13e9),
             0x1429_2967, 0x2079_cf86, 0x033c_17ef, 0x3fb4_bb4e);
  }

  lemma Rounds10()
    ensures Rounds(Initial(), BLOCK, 36)
            == Vars(0xfc56_d2b8, 0x3cd6_10cb, 0x7a71_b325, 0x7cc7_6ada, 0x718c_696b, 0x8532_51c7, 0x6f71_2dd9, 0xac7c_28f0)
  {
    hide W, Rounds, Initial;
    Rounds9();
    Words4();
    OneRound(32, Vars(0x033c_17ef, 0xc44c_9f98, 0x0d94_f00c, 0xc4b9_f5b9, 0x3fb4_bb4e, 0xae95_a0dc, 0x163a_cf8e, 0x9a0b_4446),
             0x27b7_0a85, 0x6bfc_7c3b, 0x7cc7_6ada, 0xac7c_28f0);
    OneRound(33, Vars(0x7cc7_6ada, 0x033c_17ef, 0xc44c_9f98, 0x0d94_f00c, 0xac7c_28f0, 0x3fb4_bb4e, 0xae95_a0dc, 0x163a_cf8e),
             0x2e1b_2138, 0x0c20_9d4b, 0x7a71_b325, 0x6f71_2dd9);
    OneRound(34, Vars(0x7a71_b325, 0x7cc7_6ada, 0x033c_17ef, 0xc44c_9f98, 0x6f71_2dd9, 0xac7c_28f0, 0x3fb4_bb4e, 0xae95_a0dc),
             0x4d2c_6dfc, 0x2228_225c, 0x3cd6_10cb, 0x8532_51c7);
    OneRound(35, Vars(0x3cd6_10cb, 0x7a71_b325, 0x7cc7_6ada, 0x033c_17ef, 0x8532_51c7, 0x6f71_2dd9, 0xac7c_28f0, 0x3fb4_bb4e),
             0x5338_0d13, 0xee1a_d25b, 0xfc56_d2b8, 0x718c_696b);
  }

  lemma Rounds11()
    ensures Rounds(Initial(), BLOCK, 40)
            == Vars(0x4b80_a310, 0xa3c3_854f, 0xcccf_6cff, 0x9b54_7889, 0xef77_4739, 0x5ac4_daea, 0x976e_ecaf, 0xaa2c_9ad1)
  {
    hide W, Rounds, Initial;
    Rounds10();
    Words4();
    OneRound(36, Vars(0xfc56_d2b8, 0x3cd6_10cb, 0x7a71_b325, 0x7cc7_6ada, 0x718c_696b, 0x8532_51c7, 0x6f71_2dd9, 0xac7c_28f0),
             0x650a_7354, 0xc5d0_9850, 0x9b54_7889, 0xaa2c_9ad1);
    OneRound(37, Vars(0x9b54_7889, 0xfc56_d2b8, 0x3cd6_10cb, 0x7a71_b325, 0xaa2c_9ad1, 0x718c_696b, 0x8532_51c7, 0x6f71_2dd9),
             0x766a_0abb, 0x0733_1882, 0xcccf_6cff, 0x976e_ecaf);
    OneRound(38, Vars(0xcccf_6cff, 0x9b54_7889, 0xfc56_d2b8, 0x3cd6_10cb, 0x976e_ecaf, 0xaa2c_9ad1, 0x718c_696b, 0x8532_51c7),
             0x81c2_c92e, 0x9774_23c5, 0xa3c3_854f, 0x5ac4_daea);
    OneRound(39, Vars(0xa3c3_854f, 0xcccf_6cff, 0x9b54_7889, 0xfc56_d2b8, 0x5ac4_daea, 0x976e_ecaf, 0xaa2c_9ad1, 0x718c_696b),
             0x9272_2c85, 0xa667_d6f9, 0x4b80_a310, 0xef77_4739);
  }

  lemma Rounds12()
    ensures Rounds(Initial(), BLOCK, 44)
            == Vars(0x0b63_d3f9, 0xc05e_c85d, 0x5ebe_f098, 0xf313_43b7, 0x3aec_ee8c, 0x9fe0_4171, 0x9b95_42c5, 0xb9b5_e0f2)
  {
    hide W, Rounds, Initial;
    Rounds11();
    Words5();
    OneRound(40, Vars(0x4b80_a310, 0xa3c3_854f, 0xcccf_6cff, 0x9b54_7889, 0xef77_4739, 0x5ac4_daea, 0x976e_ecaf, 0xaa2c_9ad1),
             0xa2bf_e8a1, 0xbc04_4b46, 0xf313_43b7, 0xb9b5_e0f2);
    OneRound(41, Vars(0xf313_43b7, 0x4b80_a310, 0xa3c3_854f, 0xcccf_6cff, 0xb9b5_e0f2, 0xef77_4739, 0x5ac4_daea, 0x976e_ecaf),
             0xa81a_664b, 0x9585_9031, 0x5ebe_f098, 0x9b95_42c5);
    OneRound(42, Vars(0x5ebe_f098, 0xf313_43b7, 0x4b80_a310, 0xa3c3_854f, 0x9b95_42c5, 0xb9b5_e0f2, 0xef77_4739, 0x5ac4_daea),
             0xc24b_8b70, 0x5c98_ca62, 0xc05e_c85d, 0x9fe0_4171);
    OneRound(43, Vars(0xc05e_c85d, 0x5ebe_f098, 0xf313_43b7, 0x4b80_a310, 0x9fe0_4171, 0x9b95_42c5, 0xb9b5_e0f2, 0xef77_4739),
             0xc76c_51a3, 0x6486_0c1b, 0x0b63_d3f9, 0x3aec_ee8c);
  }

  lemma Rounds13()
    ensures Rounds(Initial(), BLOCK, 48)
            == Vars(0x92aa_ef10, 0xf5e7_5fc1, 0xb718_2ef2, 0xda1b_95a3, 0x88ea_2409, 0x6042_168a, 0x15ac_92b5, 0x3050_bcb4)
  {
    hide W, Rounds, Initial;
    Rounds12();
    Words5();
    OneRound(44, Vars(0x0b63_d3f9, 0xc05e_c85d, 0x5ebe_f098, 0xf313_43b7, 0x3aec_ee8c, 0x9fe0_4171, 0x9b95_42c5, 0xb9b5_e0f2),
             0xd192_e819, 0x7ee7_c777, 0xda1b_95a3, 0x3050_bcb4);
    OneRound(45, Vars(0xda1b_95a3, 0x0b63_d3f9, 0xc05e_c85d, 0x5ebe_f098, 0x3050_bcb4, 0x3aec_ee8c, 0x9fe0_4171, 0x9b95_42c5),
             0xd699_0624, 0x16c5_5872, 0xb718_2ef2, 0x15ac_92b5);
    OneRound(46, Vars(0xb718_2ef2, 0xda1b_95a3, 0x0b63_d3f9, 0xc05e_c85d, 0x15ac_92b5, 0x3050_bcb4, 0x3aec_ee8c, 0x9fe0_4171),
             0xf40e_3585, 0x7cf6_7d29, 0xf5e7_5fc1, 0x6042_168a);
    OneRound(47, Vars(0xf5e7_5fc1, 0xb718_2ef2, 0xda1b_95a3, 0x0b63_d3f9, 0x6042_168a, 0x15ac_92b5, 0x3050_bcb4, 0x3aec_ee8c),
             0x106a_a070, 0x4857_c138, 0x92aa_ef10, 0x88ea_2409);
  }

  lemma Rounds14()
    ensures Rounds(Initial(), BLOCK, 52)
            == Vars(0xce9f_8e65, 0x5e6a_13a9, 0xa20f_a1b5, 0x83f8_ecc0, 0x7c41_0911, 0x75fe_5742, 0x1ff3_b9ef, 0xaed7_a5ba)
  {
    hide W, Rounds, Initial;
    Rounds13();
    Words6();
    OneRound(48, Vars(0x92aa_ef10, 0xf5e7_5fc1, 0xb718_2ef2, 0xda1b_95a3, 0x88ea_2409, 0x6042_168a, 0x15ac_92b5, 0x3050_bcb4),
             0x19a4_c116, 0xa37f_4a81, 0x83f8_ecc0, 0xaed7_a5ba);
    OneRound(49, Vars(0x83f8_ecc0, 0x92aa_ef10, 0xf5e7_5fc1, 0xb718_2ef2, 0xaed7_a5ba, 0x88ea_2409, 0x6042_168a, 0x15ac_92b5),
             0x1e37_6c08, 0x35f8_fd03, 0xa20f_a1b5, 0x1ff3_b9ef);
    OneRound(50, Vars(0xa20f_a1b5, 0x83f8_ecc0, 0x92aa_ef10, 0xf5e7_5fc1, 0x1ff3_b9ef, 0xaed7_a5ba, 0x88ea_2409, 0x6042_168a),
             0x2748_774c, 0xf16f_fce2, 0x5e6a_13a9, 0x75fe_5742);
    OneRound(51, Vars(0x5e6a_13a9, 0xa20f_a1b5, 0x83f8_ecc0, 0x92aa_ef10, 0x75fe_5742, 0x1ff3_b9ef, 0xaed7_a5ba, 0x88ea_2409),
             0x34b0_bcb5, 0x6d54_9f9c, 0xce9f_8e65, 0x7c41_0911);
  }

  lemma Rounds15()
    ensures Rounds(Initial(), BLOCK, 56)
            == Vars(0x335e_273d, 0xa87f_a1ef, 0x5ae0_dba6, 0x952f_e02e, 0x4da8_becd, 0x5f55_72ee, 0x0301_100e, 0xcc69_48ea)
  {
    hide W, Rounds, Initial;
    Rounds14();
    Words6();
    OneRound(52, Vars(0xce9f_8e65, 0x5e6a_13a9, 0xa20f_a1b5, 0x83f8_ecc0, 0x7c41_0911, 0x75fe_5742, 0x1ff3_b9ef, 0xaed7_a5ba),
             0x391c_0cb3, 0xa12f_f314, 0x952f_e02e, 0xcc69_48ea);
    OneRound(53, Vars(0x952f_e02e, 0xce9f_8e65, 0x5e6a_13a9, 0xa20f_a1b5, 0xcc69_48ea, 0x7c41_0911, 0x75fe_5742, 0x1ff3_b9ef),
             0x4ed8_aa4a, 0xf181_8db4, 0x5ae0_dba6, 0x0301_100e);
    OneRound(54, Vars(0x5ae0_dba6, 0x952f_e02e, 0xce9f_8e65, 0x5e6a_13a9, 0x0301_100e, 0xcc69_48ea, 0x7c41_0911, 0x75fe_5742),
             0x5b9c_ca4f, 0xf9ca_d136, 0xa87f_a1ef, 0x5f55_72ee);
    OneRound(55, Vars(0xa87f_a1ef, 0x5ae0_dba6, 0x952f_e02e, 0xce9f_8e65, 0x5f55_72ee, 0x0301_100e, 0xcc69_48ea, 0x7c41_0911),
             0x682e_6ff3, 0xc960_d70c, 0x335e_273d, 0x4da8_becd);
  }

  lemma Rounds16()
    ensures Rounds(Initial(), BLOCK, 60)
            == Vars(0x9616_8426, 0x651a_8bfa, 0x51b0_87fc, 0x4af4_f18a, 0xdb09_c3ab, 0xd014_28f0, 0xb4e9_7f05, 0x9803_4616)
  {
    hide W, Rounds, Initial;
    Rounds15();
    Words7();
    OneRound(56, Vars(0x335e_273d, 0xa87f_a1ef, 0x5ae0_dba6, 0x952f_e02e, 0x4da8_becd, 0x5f55_72ee, 0x0301_100e, 0xcc69_48ea),
             0x748f_82ee, 0x3a18_f5f8, 0x4af4_f18a, 0x9803_4616);
    OneRound(57, Vars(0x4af4_f18a, 0x335e_273d, 0xa87f_a1ef, 0x5ae0_dba6, 0x9803_4616, 0x4da8_becd, 0x5f55_72ee, 0x0301_100e),
             0x78a5_636f, 0xf5fd_f2ba, 0x51b0_87fc, 0xb4e9_7f05);
    OneRound(58, Vars(0x51b0_87fc, 0x4af4_f18a, 0x335e_273d, 0xa87f_a1ef, 0xb4e9_7f05, 0x9803_4616, 0x4da8_becd, 0x5f55_72ee),
             0x84c8_7814, 0xe79a_1b2a, 0x651a_8bfa, 0xd014_28f0);
    OneRound(59, Vars(0x651a_8bfa, 0x51b0_87fc, 0x4af4_f18a, 0x335e_273d, 0xd014_28f0, 0xb4e9_7f05, 0x9803_4616, 0x4da8_becd),
             0x8cc7_0208, 0x5dea_4345, 0x9616_8426, 0xdb09_c3ab);
  }

  lemma Rounds17()
    ensures Rounds(Initial(), BLOCK, 64)
            == Vars(0xc2e8_6753, 0xa448_f489, 0xea79_47b8, 0x2069_ed64, 0xca07_cbdd, 0x84a1_d9d2, 0x5380_59b7, 0x37aa_cb0b)
  {
    hide W, Rounds, Initial;
    Rounds16();
    Words7();
    OneRound(60, Vars(0x9616_8426, 0x651a_8bfa, 0x51b0_87fc, 0x4af4_f18a, 0xdb09_c3ab, 0xd014_28f0, 0xb4e9_7f05, 0x9803_4616),
             0x90be_fffa, 0x701c_c2f2, 0x2069_ed64, 0x37aa_cb0b);
    OneRound(61, Vars(0x2069_ed64, 0x9616_8426, 0x651a_8bfa, 0x51b0_87fc, 0x37aa_cb0b, 0xdb09_c3ab, 0xd014_28f0, 0xb4e9_7f05),
             0xa450_6ceb, 0x3c9b_25e2, 0xea79_47b8, 0x5380_59b7);
    OneRound(62, Vars(0xea79_47b8, 0x2069_ed64, 0x9616_8426, 0x651a_8bfa, 0x5380_59b7, 0x37aa_cb0b, 0xdb09_c3ab, 0xd014_28f0),
             0xbef9_a3f7, 0xc967_0b22, 0xa448_f489, 0x84a1_d9d2);
    OneRound(63, Vars(0xa448_f489, 0xea79_47b8, 0x2069_ed64, 0x9616_8426, 0x84a1_d9d2, 0x5380_59b7, 0x37aa_cb0b, 0xdb09_c3ab),
             0xc671_78f2, 0x3e3c_b561, 0xc2e8_6753, 0xca07_cbdd);
  }

  lemma Start()
    ensures Initial() == Vars(0x6a09_e667, 0xbb67_ae85, 0x3c6e_f372, 0xa54f_f53a, 0x510e_527f, 0x9b05_688c, 0x1f83_d9ab, 0x5be0_cd19)
    ensures Rounds(Initial(), BLOCK, 0) == Initial()
  {
    hide HInit;
    InitialWords();
    AsWord(HInit(0), 0x6a09_e667);
    AsWord(HInit(1), 0xbb67_ae85);
    AsWord(HInit(2), 0x3c6e_f372);
    AsWord(HInit(3), 0xa54f_f53a);
    AsWord(HInit(4), 0x510e_527f);
    AsWord(HInit(5), 0x9b05_688c);
    AsWord(HInit(6), 0x1f83_d9ab);
    AsWord(HInit(7), 0x5be0_cd19);
  }

  lemma InitialWords()
    ensures HInit(0) == 0x6a09_e667 && HInit(1) == 0xbb67_ae85 && HInit(2) == 0x3c6e_f372 && HInit(3) == 0xa54f_f53a
    ensures HInit(4) == 0x510e_527f && HInit(5) == 0x9b05_688c && HInit(6) == 0x1f83_d9ab && HInit(7) == 0x5be0_cd19
  {
  }

  /** sha256("hello"), as the file's own example prints it. */
  lemma HelloDigest()
    ensures Digest(HELLO) == Vars(0x2cf2_4dba, 0x5fb0_a30e, 0x26e8_3b2a, 0xc5b9_e29e, 0x1b16_1e5c, 0x1fa7_425e, 0x7304_3362, 0x938b_9824)
  {
    hide Rounds, W;
    OneBlock();
    Start();
    Rounds17();
    assert Digest(HELLO) == Compress(Initial(), BLOCK);
  }
}
