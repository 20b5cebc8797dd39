/** The digest of "abc", step by step. */
module Sha1Abc {
  import opened ByteOrder
  import opened Sha1Spec

  const ABC: seq<Byte> := [0x61, 0x62, 0x63]

  function Pick(i: int, w0: Word, w1: Word, w2: Word, w3: Word, w4: Word, w5: Word, w6: Word, w7: Word): Word {
    if i == 0 then w0 else if i == 1 then w1 else if i == 2 then w2 else if i == 3 then w3
    else if i == 4 then w4 else if i == 5 then w5 else if i == 6 then w6 else w7
  }

  /** Word `t` of the message schedule. */
  function ScheduleWord(t: nat): Word {
    if t < 8 then Pick(t, 0x6162_6380, 0x0000_0000, 0x0000_0000, 0x0000_0000,
      0x0000_0000, 0x0000_0000, 0x0000_0000, 0x0000_0000)
    else if t < 16 then Pick(t - 8, 0x0000_0000, 0x0000_0000, 0x0000_0000, 0x0000_0000,
      0x0000_0000, 0x0000_0000, 0x0000_0000, 0x0000_0018)
    else if t < 24 then Pick(t - 16, 0xc2c4_c700, 0x0000_0000, 0x0000_0030, 0x8589_8e01,
      0x0000_0000, 0x0000_0060, 0x0b13_1c03, 0x0000_0030)
    else if t < 32 then Pick(t - 24, 0x8589_8ec1, 0x1626_3806, 0x0000_0000, 0x0000_0180,
      0x2c4c_700c, 0x0000_00f0, 0x93af_b507, 0x5898_e048)
    else if t < 40 then Pick(t - 32, 0x8e9a_9202, 0x0000_0600, 0xb131_c0f0, 0x1626_3bc6,
      0x4ebe_d41e, 0x6263_80a1, 0x1626_3806, 0x0000_18c0)
    else if t < 48 then Pick(t - 40, 0xd2e1_38c4, 0x0000_0f00, 0x3afb_5079, 0x898e_04e5,
      0xe2ba_3c2b, 0x0000_60c0, 0x053a_37cd, 0x7445_8547)
    else if t < 56 then Pick(t - 48, 0xda94_15ed, 0x2638_0a16, 0x6263_83a1, 0x4ebf_54de,
      0x3835_b44b, 0x0000_f600, 0x1e84_c7a3, 0x98e0_4d98)
    else if t < 64 then Pick(t - 56, 0x651d_16a0, 0x6265_8ca1, 0x4585_44d6, 0x4458_4cb7,
      0x7ba0_6619, 0x6380_aea2, 0x0ae5_5269, 0x627b_49a1)
    else if t < 72 then Pick(t - 64, 0x7cd4_5c9d, 0x000f_0000, 0xfb50_753a, 0xec67_65e8,
      0xba3c_2be2, 0x0060_c000, 0x3a37_cd05, 0x4585_46f4)
    else Pick(t - 72, 0xb859_9dd6, 0x380a_1a26, 0x01e0_2203, 0xe7cc_3456,
      0xe6e6_0b69, 0x00f6_0a00, 0x5795_ef4f, 0x822e_0879)
  }

  /** The working variable `a` before round `t - 4`; the other four variables are those of earlier rounds. */
  function Working(t: nat): Word {
    if t < 8 then Pick(t, 0x0f4b_87c3, 0x40c9_51d8, 0x62eb_73fa, 0xefcd_ab89,
      0x6745_2301, 0x0116_fc33, 0x8990_536d, 0xa139_0f08)
    else if t < 16 then Pick(t - 8, 0xcdd8_e11b, 0xcfd4_99de, 0x3fc7_ca40, 0x993e_30c1,
      0x9e8c_07d4, 0x4b6a_e328, 0x8351_f929, 0xfbda_9e89)
    else if t < 24 then Pick(t - 16, 0x6318_8fe4, 0x4607_b664, 0x9128_f695, 0x196b_ee77,
      0x20bd_d62f, 0x4e92_5823, 0x82aa_6728, 0xdc64_901d)
    else if t < 32 then Pick(t - 24, 0xfd9e_1d7d, 0x1a37_b0ca, 0x33a2_3bfc, 0x2128_3486,
      0xd541_f12d, 0xc756_7dc6, 0x4841_3ba4, 0xbe35_fbd5)
    else if t < 40 then Pick(t - 32, 0x4aa8_4d97, 0x8370_b52e, 0xc5fb_af5d, 0x1267_b407,
      0x3b84_5d33, 0x046f_aa0a, 0x2c0e_bc11, 0x2179_6ad4)
    else if t < 48 then Pick(t - 40, 0xdcbb_b0cb, 0x0f51_1fd8, 0xdc63_973f, 0x4c98_6405,
      0x32de_1cba, 0xfc87_dedf, 0x970a_0d5c, 0x7f19_3dc5)
    else if t < 56 then Pick(t - 48, 0xee1b_1aaf, 0x40f2_8e09, 0x1c51_e1f2, 0xa01b_846c,
      0xbead_02ca, 0xbaf3_9337, 0x1207_31c5, 0x641d_b2ce)
    else if t < 64 then Pick(t - 56, 0x3847_ad66, 0xe490_436d, 0x27e9_f1d8, 0x7b71_f76d,
      0x5e64_56af, 0xc846_093f, 0xd262_ff50, 0x09d7_85fd)
    else if t < 72 then Pick(t - 64, 0x3f52_de5a, 0xd756_c147, 0x548c_9cb2, 0xb66c_020b,
      0x6b61_c9e1, 0x19df_a7ac, 0x1016_55f9, 0x0c3d_f2b4)
    else if t < 80 then Pick(t - 72, 0x78dd_4d2b, 0x4970_93c0, 0x3f25_88c2, 0xc199_f8c7,
      0x3985_9de7, 0xedb4_2de4, 0x1179_3f6f, 0x5ee7_6897)
    else Pick(t - 80, 0x63f7_dab7, 0xa079_b7d9, 0x860d_21cc, 0x5738_d5e1,
      0x4254_1b35, 0x0000_0000, 0x0000_0000, 0x0000_0000)
  }

  function Block(): seq<Word> { seq(16, t requires 0 <= t < 16 => ScheduleWord(t)) }

  // ---------- the schedule ----------

  predicate WordFollows(t: nat)
    requires t >= 16
  {
    ScheduleWord(t) == Rotl1(Xor4(ScheduleWord(t - 3), ScheduleWord(t - 8), ScheduleWord(t - 14), ScheduleWord(t - 16)))
  }

  lemma Words16()
    ensures WordFollows(16) && WordFollows(17) && WordFollows(18) && WordFollows(19)
    ensures WordFollows(20) && WordFollows(21) && WordFollows(22) && WordFollows(23)
  {
  }

  lemma Words24()
    ensures WordFollows(24) && WordFollows(25) && WordFollows(26) && WordFollows(27)
    ensures WordFollows(28) && WordFollows(29) && WordFollows(30) && WordFollows(31)
  {
  }

  lemma Words32()
    ensures WordFollows(32) && WordFollows(33) && WordFollows(34) && WordFollows(35)
    ensures WordFollows(36) && WordFollows(37) && WordFollows(38) && WordFollows(39)
  {
  }

  lemma Words40()
    ensures WordFollows(40) && WordFollows(41) && WordFollows(42) && WordFollows(43)
    ensures WordFollows(44) && WordFollows(45) && WordFollows(46) && WordFollows(47)
  {
  }

  lemma Words48()
    ensures WordFollows(48) && WordFollows(49) && WordFollows(50) && WordFollows(51)
    ensures WordFollows(52) && WordFollows(53) && WordFollows(54) && WordFollows(55)
  {
  }

  lemma Words56()
    ensures WordFollows(56) && WordFollows(57) && WordFollows(58) && WordFollows(59)
    ensures WordFollows(60) && WordFollows(61) && WordFollows(62) && WordFollows(63)
  {
  }

  lemma Words64()
    ensures WordFollows(64) && WordFollows(65) && WordFollows(66) && WordFollows(67)
    ensures WordFollows(68) && WordFollows(69) && WordFollows(70) && WordFollows(71)
  {
  }

  lemma Words72()
    ensures WordFollows(72) && WordFollows(73) && WordFollows(74) && WordFollows(75)
    ensures WordFollows(76) && WordFollows(77) && WordFollows(78) && WordFollows(79)
  {
  }

  lemma FirstWords(t: nat)
    requires 16 <= t < 48
    ensures WordFollows(t)
  {
    hide *;
    if t < 24 {
      Words16();
    } else if t < 32 {
      Words24();
    } else if t < 40 {
      Words32();
    } else {
      Words40();
    }
  }

  lemma LastWords(t: nat)
    requires 48 <= t < 80
    ensures WordFollows(t)
  {
    hide *;
    if t < 56 {
      Words48();
    } else if t < 64 {
      Words56();
    } else if t < 72 {
      Words64();
    } else {
      Words72();
    }
  }

  lemma AllWords(t: nat)
    requires 16 <= t < 80
    ensures WordFollows(t)
  {
    hide *;
    if t < 48 {
      FirstWords(t);
    } else {
      LastWords(t);
    }
  }

  lemma {:induction false} Schedule(t: nat)
    requires t < 80
    ensures W(Block(), t) == ScheduleWord(t)
  {
    hide ScheduleWord, Rotl1, Xor4;
    if t >= 16 {
      AllWords(t);
      Schedule(t - 3);
      Schedule(t - 8);
      Schedule(t - 14);
      Schedule(t - 16);
    }
  }

  // ---------- the rounds ----------

  function Variables(t: nat): Vars {
    Vars(Working(t + 4), Working(t + 3), Rotl30(Working(t + 2)), Rotl30(Working(t + 1)), Rotl30(Working(t)))
  }

  predicate RoundFollows(t: nat) {
    Working(t + 5) == Sum5(Rotl5(Working(t + 4)), F(t, Working(t + 3), Rotl30(Working(t + 2)), Rotl30(Working(t + 1))),
                           Rotl30(Working(t)), K(t), ScheduleWord(t))
  }

  lemma Rounds0()
    ensures RoundFollows(0) && RoundFollows(1) && RoundFollows(2) && RoundFollows(3)
  {
  }

  lemma Rounds4()
    ensures RoundFollows(4) && RoundFollows(5) && RoundFollows(6) && RoundFollows(7)
  {
  }

  lemma Rounds8()
    ensures RoundFollows(8) && RoundFollows(9) && RoundFollows(10) && RoundFollows(11)
  {
  }

  lemma Rounds12()
    ensures RoundFollows(12) && RoundFollows(13) && RoundFollows(14) && RoundFollows(15)
  {
  }

  lemma Rounds16()
    ensures RoundFollows(16) && RoundFollows(17) && RoundFollows(18) && RoundFollows(19)
  {
  }

  lemma Rounds20()
    ensures RoundFollows(20) && RoundFollows(21) && RoundFollows(22) && RoundFollows(23)
  {
  }

  lemma Rounds24()
    ensures RoundFollows(24) && RoundFollows(25) && RoundFollows(26) && RoundFollows(27)
  {
  }

  lemma Rounds28()
    ensures RoundFollows(28) && RoundFollows(29) && RoundFollows(30) && RoundFollows(31)
  {
  }

  lemma Rounds32()
    ensures RoundFollows(32) && RoundFollows(33) && RoundFollows(34) && RoundFollows(35)
  {
  }

  lemma Rounds36()
    ensures RoundFollows(36) && RoundFollows(37) && RoundFollows(38) && RoundFollows(39)
  {
  }

  lemma Rounds40()
    ensures RoundFollows(40) && RoundFollows(41) && RoundFollows(42) && RoundFollows(43)
  {
  }

  lemma Rounds44()
    ensures RoundFollows(44) && RoundFollows(45) && RoundFollows(46) && RoundFollows(47)
  {
  }

  lemma Rounds48()
    ensures RoundFollows(48) && RoundFollows(49) && RoundFollows(50) && RoundFollows(51)
  {
  }

  lemma Rounds52()
    ensures RoundFollows(52) && RoundFollows(53) && RoundFollows(54) && RoundFollows(55)
  {
  }

  lemma Rounds56()
    ensures RoundFollows(56) && RoundFollows(57) && RoundFollows(58) && RoundFollows(59)
  {
  }

  lemma Rounds60()
    ensures RoundFollows(60) && RoundFollows(61) && RoundFollows(62) && RoundFollows(63)
  {
  }

  lemma Rounds64()
    ensures RoundFollows(64) && RoundFollows(65) && RoundFollows(66) && RoundFollows(67)
  {
  }

  lemma Rounds68()
    ensures RoundFollows(68) && RoundFollows(69) && RoundFollows(70) && RoundFollows(71)
  {
  }

  lemma Rounds72()
    ensures RoundFollows(72) && RoundFollows(73) && RoundFollows(74) && RoundFollows(75)
  {
  }

  lemma Rounds76()
    ensures RoundFollows(76) && RoundFollows(77) && RoundFollows(78) && RoundFollows(79)
  {
  }

  lemma FirstRounds(t: nat)
    requires t < 40
    ensures RoundFollows(t)
  {
    hide *;
    if t < 4 {
      Rounds0();
    } else if t < 8 {
      Rounds4();
    } else if t < 12 {
      Rounds8();
    } else if t < 16 {
      Rounds12();
    } else if t < 20 {
      Rounds16();
    } else if t < 24 {
      Rounds20();
    } else if t < 28 {
      Rounds24();
    } else if t < 32 {
      Rounds28();
    } else if t < 36 {
      Rounds32();
    } else {
      Rounds36();
    }
  }

  lemma LastRounds(t: nat)
    requires 40 <= t < 80
    ensures RoundFollows(t)
  {
    hide *;
    if t < 44 {
      Rounds40();
    } else if t < 48 {
      Rounds44();
    } else if t < 52 {
      Rounds48();
    } else if t < 56 {
      Rounds52();
    } else if t < 60 {
      Rounds56();
    } else if t < 64 {
      Rounds60();
    } else if t < 68 {
      Rounds64();
    } else if t < 72 {
      Rounds68();
    } else if t < 76 {
      Rounds72();
    } else {
      Rounds76();
    }
  }

  lemma AllRounds(t: nat)
    requires t < 80
    ensures RoundFollows(t)
  {
    hide *;
    if t < 40 {
      FirstRounds(t);
    } else {
      LastRounds(t);
    }
  }

  lemma FirstVariables()
    ensures Variables(0) == INITIAL
  {
  }

  lemma {:induction false} AfterRounds(t: nat)
    requires t <= 80
    ensures Rounds(INITIAL, Block(), t) == Variables(t)
  {
    hide Working, ScheduleWord, Rotl5, Rotl30, Sum5, F, K, W, RoundFollows;
    if t == 0 {
      FirstVariables();
    } else {
      AfterRounds(t - 1);
      Schedule(t - 1);
      AllRounds(t - 1);
      RoundMeans(t - 1);
    }
  }

  lemma RoundMeans(t: nat)
    requires RoundFollows(t)
    ensures Round(Variables(t), t, ScheduleWord(t)) == Variables(t + 1)
  {
    hide Working, ScheduleWord, Rotl5, Rotl30, Sum5, F, K;
  }

  // ---------- the block and the digest ----------

  lemma PaddedBytes()
    ensures Pad(ABC) == ABC + [0x80] + Zeros(52) + [0, 0, 0, 0, 0, 0, 0, 0x18]
  {
    LengthBytes();
  }

  lemma LengthBytes()
    ensures BigEndian(24, 8) == [0, 0, 0, 0, 0, 0, 0, 0x18]
  {
    ByteValues();
    hide ToByte;
    assert BigEndian(0, 1) == [0] && BigEndian(0, 2) == [0, 0] && BigEndian(0, 3) == [0, 0, 0];
    assert BigEndian(0, 4) == [0, 0, 0, 0] && BigEndian(0, 5) == [0, 0, 0, 0, 0];
    assert BigEndian(0, 6) == [0, 0, 0, 0, 0, 0] && BigEndian(0, 7) == [0, 0, 0, 0, 0, 0, 0];
    assert 24 / 0x100 == 0 && 24 % 0x100 == 24;
  }

  lemma ByteValues()
    ensures ToByte(0) == 0 && ToByte(24) == 0x18
  {
  }

  lemma BlockWords()
    ensures ScheduleWord(0) == WordOf(0x61, 0x62, 0x63, 0x80) && ScheduleWord(15) == WordOf(0, 0, 0, 0x18)
    ensures forall t: nat :: 0 < t < 15 ==> ScheduleWord(t) == WordOf(0, 0, 0, 0)
  {
  }

  lemma PaddedBlock()
    ensures |Pad(ABC)| == 64 && BlockOf(Pad(ABC)) == Block()
  {
    PaddedBytes();
    BlockWords();
    hide WordOf, ScheduleWord, Pad, Zeros;
    var bytes := Pad(ABC);
    assert |bytes| == 64;
    forall k | 0 <= k < 16 ensures WordAt(bytes, k) == ScheduleWord(k) {
      ZeroAt(bytes, k);
    }
  }

  lemma ZeroAt(bytes: seq<Byte>, k: nat)
    requires k < 16 && bytes == ABC + [0x80] + Zeros(52) + [0, 0, 0, 0, 0, 0, 0, 0x18]
    ensures bytes[4 * k] == (if k == 0 then 0x61 else 0) && bytes[4 * k + 1] == (if k == 0 then 0x62 else 0)
    ensures bytes[4 * k + 2] == (if k == 0 then 0x63 else 0)
    ensures bytes[4 * k + 3] == (if k == 0 then 0x80 else if k == 15 then 0x18 else 0)
  {
  }

  lemma FinalWords()
    ensures Plus(Variables(80), INITIAL) == Vars(0xa999_3e36, 0x4706_816a, 0xba3e_2571, 0x7850_c26c, 0x9cd0_d89d)
  {
  }

  lemma FinalBytes()
    ensures Digest(Vars(0xa999_3e36, 0x4706_816a, 0xba3e_2571, 0x7850_c26c, 0x9cd0_d89d))
      == [0xa9, 0x99, 0x3e, 0x36, 0x47, 0x06, 0x81, 0x6a, 0xba, 0x3e,
          0x25, 0x71, 0x78, 0x50, 0xc2, 0x6c, 0x9c, 0xd0, 0xd8, 0x9d]
  {
  }

  /** The first example of FIPS 180: the digest of "abc". */
  lemma AbcDigest()
    ensures Sha1Spec.Sha1(ABC)
      == [0xa9, 0x99, 0x3e, 0x36, 0x47, 0x06, 0x81, 0x6a, 0xba, 0x3e,
          0x25, 0x71, 0x78, 0x50, 0xc2, 0x6c, 0x9c, 0xd0, 0xd8, 0x9d]
  {
    hide Pad, BlockOf, Rounds, Variables, Digest, Plus;
    PaddedBlock();
    AfterRounds(80);
    FinalWords();
    FinalBytes();
    assert HashBlocks(Compress(INITIAL, Block()), Pad(ABC)[64..]) == Compress(INITIAL, Block());
  }
}
