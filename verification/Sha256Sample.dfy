/** The first sample message of the source, "abc", worked through by the definition of the standard. */
module Sha256Sample {
  import opened Sha256Spec

  function Message(): seq<bv8> { [0x61, 0x62, 0x63] }

  /** The message, the bit behind it, and its length of 24 bits. */
  function Padded(): Block { [0x61, 0x62, 0x63, 0x80] + Zeros(59) + [0x18] }

  lemma LengthOfMessage()
    ensures LengthBytes(3) == Zeros(7) + [0x18]
  {
    assert LengthWord(24) == 24;
  }

  lemma PaddedCorrect()
    ensures Pad(Message()) == Padded()
  {
    hide LengthBytes;
    LengthOfMessage();
  }

  // ----- the message schedule -----

  predicate WordIs(b: Block, t: nat, word: bv32)
    requires t < 64
  {
    Schedule(b, t) == word
  }

  lemma FirstWord(b: Block, t: nat)
    requires b == Padded() && t < 16
    ensures WordIs(b, t, if t == 0 then 0x61626380 else if t == 15 then 0x18 else 0)
  {
  }

  lemma NextScheduled(b: Block, t: nat)
    requires 16 <= t < 64
    ensures WordIs(b, t, NextWord(Schedule(b, t - 2), Schedule(b, t - 7), Schedule(b, t - 15), Schedule(b, t - 16)))
  {
    hide NextWord, BlockWord;
  }

  lemma Words0(b: Block)
    requires b == Padded()
    ensures WordIs(b, 0, 0x61626380) && WordIs(b, 1, 0x00000000) && WordIs(b, 2, 0x00000000) && WordIs(b, 3, 0x00000000)
    ensures WordIs(b, 4, 0x00000000) && WordIs(b, 5, 0x00000000) && WordIs(b, 6, 0x00000000) && WordIs(b, 7, 0x00000000)
  {
    hide WordIs, Padded;
    FirstWord(b, 0); FirstWord(b, 1); FirstWord(b, 2); FirstWord(b, 3);
    FirstWord(b, 4); FirstWord(b, 5); FirstWord(b, 6); FirstWord(b, 7);
  }

  lemma Words1(b: Block)
    requires b == Padded()
    ensures WordIs(b, 8, 0x00000000) && WordIs(b, 9, 0x00000000) && WordIs(b, 10, 0x00000000) && WordIs(b, 11, 0x00000000)
    ensures WordIs(b, 12, 0x00000000) && WordIs(b, 13, 0x00000000) && WordIs(b, 14, 0x00000000) && WordIs(b, 15, 0x00000018)
  {
    hide WordIs, Padded;
    FirstWord(b, 8); FirstWord(b, 9); FirstWord(b, 10); FirstWord(b, 11);
    FirstWord(b, 12); FirstWord(b, 13); FirstWord(b, 14); FirstWord(b, 15);
  }

  lemma Words2(b: Block)
    requires b == Padded()
    ensures WordIs(b, 16, 0x61626380) && WordIs(b, 17, 0x000f0000) && WordIs(b, 18, 0x7da86405) && WordIs(b, 19, 0x600003c6)
    ensures WordIs(b, 20, 0x3e9d7b78) && WordIs(b, 21, 0x0183fc00) && WordIs(b, 22, 0x12dcbfdb) && WordIs(b, 23, 0xe2e2c38e)
  {
    hide Schedule, Padded;
    Words0(b);
    Words1(b);
    NextScheduled(b, 16); NextScheduled(b, 17); NextScheduled(b, 18); NextScheduled(b, 19);
    NextScheduled(b, 20); NextScheduled(b, 21); NextScheduled(b, 22); NextScheduled(b, 23);
  }

  lemma Words3(b: Block)
    requires b == Padded()
    ensures WordIs(b, 24, 0xc8215c1a) && WordIs(b, 25, 0xb73679a2) && WordIs(b, 26, 0xe5bc3909) && WordIs(b, 27, 0x32663c5b)
    ensures WordIs(b, 28, 0x9d209d67) && WordIs(b, 29, 0xec8726cb) && WordIs(b, 30, 0x702138a4) && WordIs(b, 31, 0xd3b7973b)
  {
    hide Schedule, Padded;
    Words1(b);
    Words2(b);
    NextScheduled(b, 24); NextScheduled(b, 25); NextScheduled(b, 26); NextScheduled(b, 27);
    NextScheduled(b, 28); NextScheduled(b, 29); NextScheduled(b, 30); NextScheduled(b, 31);
  }

  lemma Words4(b: Block)
    requires b == Padded()
    ensures WordIs(b, 32, 0x93f5997f) && WordIs(b, 33, 0x3b68ba73) && WordIs(b, 34, 0xaff4ffc1) && WordIs(b, 35, 0xf10a5c62)
    ensures WordIs(b, 36, 0x0a8b3996) && WordIs(b, 37, 0x72af830a) && WordIs(b, 38, 0x9409e33e) && WordIs(b, 39, 0x24641522)
  {
    hide Schedule, Padded;
    Words2(b);
    Words3(b);
    NextScheduled(b, 32); NextScheduled(b, 33); NextScheduled(b, 34); NextScheduled(b, 35);
    NextScheduled(b, 36); NextScheduled(b, 37); NextScheduled(b, 38); NextScheduled(b, 39);
  }

  lemma Words5(b: Block)
    requires b == Padded()
    ensures WordIs(b, 40, 0x9f47bf94) && WordIs(b, 41, 0xf0a64f5a) && WordIs(b, 42, 0x3e246a79) && WordIs(b, 43, 0x27333ba3)
    ensures WordIs(b, 44, 0x0c4763f2) && WordIs(b, 45, 0x840abf27) && WordIs(b, 46, 0x7a290d5d) && WordIs(b, 47, 0x065c43da)
  {
    hide Schedule, Padded;
    Words3(b);
    Words4(b);
    NextScheduled(b, 40); NextScheduled(b, 41); NextScheduled(b, 42); NextScheduled(b, 43);
    NextScheduled(b, 44); NextScheduled(b, 45); NextScheduled(b, 46); NextScheduled(b, 47);
  }

  lemma Words6(b: Block)
    requires b == Padded()
    ensures WordIs(b, 48, 0xfb3e89cb) && WordIs(b, 49, 0xcc7617db) && WordIs(b, 50, 0xb9e66c34) && WordIs(b, 51, 0xa9993667)
    ensures WordIs(b, 52, 0x84badedd) && WordIs(b, 53, 0xc21462bc) && WordIs(b, 54, 0x1487472c) && WordIs(b, 55, 0xb20f7a99)
  {
    hide Schedule, Padded;
    Words4(b);
    Words5(b);
    NextScheduled(b, 48); NextScheduled(b, 49); NextScheduled(b, 50); NextScheduled(b, 51);
    NextScheduled(b, 52); NextScheduled(b, 53); NextScheduled(b, 54); NextScheduled(b, 55);
  }

  lemma Words7(b: Block)
    requires b == Padded()
    ensures WordIs(b, 56, 0xef57b9cd) && WordIs(b, 57, 0xebe6b238) && WordIs(b, 58, 0x9fe3095e) && WordIs(b, 59, 0x78bc8d4b)
    ensures WordIs(b, 60, 0xa43fcf15) && WordIs(b, 61, 0x668b2ff8) && WordIs(b, 62, 0xeeaba2cc) && WordIs(b, 63, 0x12b1edeb)
  {
    hide Schedule, Padded;
    Words5(b);
    Words6(b);
    NextScheduled(b, 56); NextScheduled(b, 57); NextScheduled(b, 58); NextScheduled(b, 59);
    NextScheduled(b, 60); NextScheduled(b, 61); NextScheduled(b, 62); NextScheduled(b, 63);
  }

  // ----- the rounds -----

  /** The working variables after `t` rounds. */
  predicate VarsAre(b: Block, t: nat, v: Vars)
    requires t <= 64
  {
    Rounds(INITIAL, b, t) == v
  }

  lemma NextRound(b: Block, t: nat, v: Vars, k: bv32, word: bv32, next: Vars)
    requires t < 64 && Constant(t) == k && WordIs(b, t, word) && VarsAre(b, t, v) && Round(v, k, word) == next
    ensures VarsAre(b, t + 1, next)
  {
    hide Round, Schedule, Constant;
  }

  lemma Constants0()
    ensures Constant(0) == 0x428a2f98 && Constant(1) == 0x71374491 && Constant(2) == 0xb5c0fbcf && Constant(3) == 0xe9b5dba5
    ensures Constant(4) == 0x3956c25b && Constant(5) == 0x59f111f1 && Constant(6) == 0x923f82a4 && Constant(7) == 0xab1c5ed5
  {
  }

  lemma Constants1()
    ensures Constant(8) == 0xd807aa98 && Constant(9) == 0x12835b01 && Constant(10) == 0x243185be && Constant(11) == 0x550c7dc3
    ensures Constant(12) == 0x72be5d74 && Constant(13) == 0x80deb1fe && Constant(14) == 0x9bdc06a7 && Constant(15) == 0xc19bf174
  {
  }

  lemma Constants2()
    ensures Constant(16) == 0xe49b69c1 && Constant(17) == 0xefbe4786 && Constant(18) == 0x0fc19dc6 && Constant(19) == 0x240ca1cc
    ensures Constant(20) == 0x2de92c6f && Constant(21) == 0x4a7484aa && Constant(22) == 0x5cb0a9dc && Constant(23) == 0x76f988da
  {
  }

  lemma Constants3()
    ensures Constant(24) == 0x983e5152 && Constant(25) == 0xa831c66d && Constant(26) == 0xb00327c8 && Constant(27) == 0xbf597fc7
    ensures Constant(28) == 0xc6e00bf3 && Constant(29) == 0xd5a79147 && Constant(30) == 0x06ca6351 && Constant(31) == 0x14292967
  {
  }

  lemma Constants4()
    ensures Constant(32) == 0x27b70a85 && Constant(33) == 0x2e1b2138 && Constant(34) == 0x4d2c6dfc && Constant(35) == 0x53380d13
    ensures Constant(36) == 0x650a7354 && Constant(37) == 0x766a0abb && Constant(38) == 0x81c2c92e && Constant(39) == 0x92722c85
  {
  }

  lemma Constants5()
    ensures Constant(40) == 0xa2bfe8a1 && Constant(41) == 0xa81a664b && Constant(42) == 0xc24b8b70 && Constant(43) == 0xc76c51a3
    ensures Constant(44) == 0xd192e819 && Constant(45) == 0xd6990624 && Constant(46) == 0xf40e3585 && Constant(47) == 0x106aa070
  {
  }

  lemma Constants6()
    ensures Constant(48) == 0x19a4c116 && Constant(49) == 0x1e376c08 && Constant(50) == 0x2748774c && Constant(51) == 0x34b0bcb5
    ensures Constant(52) == 0x391c0cb3 && Constant(53) == 0x4ed8aa4a && Constant(54) == 0x5b9cca4f && Constant(55) == 0x682e6ff3
  {
  }

  lemma Constants7()
    ensures Constant(56) == 0x748f82ee && Constant(57) == 0x78a5636f && Constant(58) == 0x84c87814 && Constant(59) == 0x8cc70208
    ensures Constant(60) == 0x90befffa && Constant(61) == 0xa4506ceb && Constant(62) == 0xbef9a3f7 && Constant(63) == 0xc67178f2
  {
  }

  lemma RoundsTo8(b: Block)
    requires b == Padded()
    ensures VarsAre(b, 8, Vars(0x85a07b5f, 0xe5030380, 0x2b4209f5, 0x04409a6a, 0x0c657a79, 0x9b27a401, 0x714260ad, 0x43ada245))
  {
    hide VarsAre, WordIs, Padded, Constant;
    Constants0();
    Words0(b);
    NoRounds(b);
    var v0 := Vars(0x6a09e667, 0xbb67ae85, 0x3c6ef372, 0xa54ff53a, 0x510e527f, 0x9b05688c, 0x1f83d9ab, 0x5be0cd19);
    var v1 := Vars(0x5d6aebcd, 0x6a09e667, 0xbb67ae85, 0x3c6ef372, 0xfa2a4622, 0x510e527f, 0x9b05688c, 0x1f83d9ab);
    NextRound(b, 0, v0, 0x428a2f98, 0x61626380, v1);
    var v2 := Vars(0x5a6ad9ad, 0x5d6aebcd, 0x6a09e667, 0xbb67ae85, 0x78ce7989, 0xfa2a4622, 0x510e527f, 0x9b05688c);
    NextRound(b, 1, v1, 0x71374491, 0x00000000, v2);
    var v3 := Vars(0xc8c347a7, 0x5a6ad9ad, 0x5d6aebcd, 0x6a09e667, 0xf92939eb, 0x78ce7989, 0xfa2a4622, 0x510e527f);
    NextRound(b, 2, v2, 0xb5c0fbcf, 0x00000000, v3);
    var v4 := Vars(0xd550f666, 0xc8c347a7, 0x5a6ad9ad, 0x5d6aebcd, 0x24e00850, 0xf92939eb, 0x78ce7989, 0xfa2a4622);
    NextRound(b, 3, v3, 0xe9b5dba5, 0x00000000, v4);
    var v5 := Vars(0x04409a6a, 0xd550f666, 0xc8c347a7, 0x5a6ad9ad, 0x43ada245, 0x24e00850, 0xf92939eb, 0x78ce7989);
    NextRound(b, 4, v4, 0x3956c25b, 0x00000000, v5);
    var v6 := Vars(0x2b4209f5, 0x04409a6a, 0xd550f666, 0xc8c347a7, 0x714260ad, 0x43ada245, 0x24e00850, 0xf92939eb);
    NextRound(b, 5, v5, 0x59f111f1, 0x00000000, v6);
    var v7 := Vars(0xe5030380, 0x2b4209f5, 0x04409a6a, 0xd550f666, 0x9b27a401, 0x714260ad, 0x43ada245, 0x24e00850);
    NextRound(b, 6, v6, 0x923f82a4, 0x00000000, v7);
    var v8 := Vars(0x85a07b5f, 0xe5030380, 0x2b4209f5, 0x04409a6a, 0x0c657a79, 0x9b27a401, 0x714260ad, 0x43ada245);
    NextRound(b, 7, v7, 0xab1c5ed5, 0x00000000, v8);
  }

  lemma RoundsTo16(b: Block)
    requires b == Padded()
    ensures VarsAre(b, 16, Vars(0xb0fa238e, 0xc0645fde, 0xd932eb16, 0x87912990, 0x07590dcd, 0x0b92f20c, 0x745a48de, 0x1e578218))
  {
    hide VarsAre, WordIs, Padded, Constant;
    Constants1();
    Words1(b);
    RoundsTo8(b);
    var v8 := Vars(0x85a07b5f, 0xe5030380, 0x2b4209f5, 0x04409a6a, 0x0c657a79, 0x9b27a401, 0x714260ad, 0x43ada245);
    var v9 := Vars(0x8e04ecb9, 0x85a07b5f, 0xe5030380, 0x2b4209f5, 0x32ca2d8c, 0x0c657a79, 0x9b27a401, 0x714260ad);
    NextRound(b, 8, v8, 0xd807aa98, 0x00000000, v9);
    var v10 := Vars(0x8c87346b, 0x8e04ecb9, 0x85a07b5f, 0xe5030380, 0x1cc92596, 0x32ca2d8c, 0x0c657a79, 0x9b27a401);
    NextRound(b, 9, v9, 0x12835b01, 0x00000000, v10);
    var v11 := Vars(0x4798a3f4, 0x8c87346b, 0x8e04ecb9, 0x85a07b5f, 0x436b23e8, 0x1cc92596, 0x32ca2d8c, 0x0c657a79);
    NextRound(b, 10, v10, 0x243185be, 0x00000000, v11);
    var v12 := Vars(0xf71fc5a9, 0x4798a3f4, 0x8c87346b, 0x8e04ecb9, 0x816fd6e9, 0x436b23e8, 0x1cc92596, 0x32ca2d8c);
    NextRound(b, 11, v11, 0x550c7dc3, 0x00000000, v12);
    var v13 := Vars(0x87912990, 0xf71fc5a9, 0x4798a3f4, 0x8c87346b, 0x1e578218, 0x816fd6e9, 0x436b23e8, 0x1cc92596);
    NextRound(b, 12, v12, 0x72be5d74, 0x00000000, v13);
    var v14 := Vars(0xd932eb16, 0x87912990, 0xf71fc5a9, 0x4798a3f4, 0x745a48de, 0x1e578218, 0x816fd6e9, 0x436b23e8);
    NextRound(b, 13, v13, 0x80deb1fe, 0x00000000, v14);
    var v15 := Vars(0xc0645fde, 0xd932eb16, 0x87912990, 0xf71fc5a9, 0x0b92f20c, 0x745a48de, 0x1e578218, 0x816fd6e9);
    NextRound(b, 14, v14, 0x9bdc06a7, 0x00000000, v15);
    var v16 := Vars(0xb0fa238e, 0xc0645fde, 0xd932eb16, 0x87912990, 0x07590dcd, 0x0b92f20c, 0x745a48de, 0x1e578218);
    NextRound(b, 15, v15, 0xc19bf174, 0x00000018, v16);
  }

  lemma RoundsTo24(b: Block)
    requires b == Padded()
    ensures VarsAre(b, 24, Vars(0xc5d53d8d, 0xa7a3623f, 0xc2606d6d, 0x9dc68b63, 0xaa47c347, 0x49f5114a, 0xe1257970, 0x8ada8930))
  {
    hide VarsAre, WordIs, Padded, Constant;
    Constants2();
    Words2(b);
    RoundsTo16(b);
    var v16 := Vars(0xb0fa238e, 0xc0645fde, 0xd932eb16, 0x87912990, 0x07590dcd, 0x0b92f20c, 0x745a48de, 0x1e578218);
    var v17 := Vars(0x21da9a9b, 0xb0fa238e, 0xc0645fde, 0xd932eb16, 0x8034229c, 0x07590dcd, 0x0b92f20c, 0x745a48de);
    NextRound(b, 16, v16, 0xe49b69c1, 0x61626380, v17);
    var v18 := Vars(0xc2fbd9d1, 0x21da9a9b, 0xb0fa238e, 0xc0645fde, 0x846ee454, 0x8034229c, 0x07590dcd, 0x0b92f20c);
    NextRound(b, 17, v17, 0xefbe4786, 0x000f0000, v18);
    var v19 := Vars(0xfe777bbf, 0xc2fbd9d1, 0x21da9a9b, 0xb0fa238e, 0xcc899961, 0x846ee454, 0x8034229c, 0x07590dcd);
    NextRound(b, 18, v18, 0x0fc19dc6, 0x7da86405, v19);
    var v20 := Vars(0xe1f20c33, 0xfe777bbf, 0xc2fbd9d1, 0x21da9a9b, 0xb0638179, 0xcc899961, 0x846ee454, 0x8034229c);
    NextRound(b, 19, v19, 0x240ca1cc, 0x600003c6, v20);
    var v21 := Vars(0x9dc68b63, 0xe1f20c33, 0xfe777bbf, 0xc2fbd9d1, 0x8ada8930, 0xb0638179, 0xcc899961, 0x846ee454);
    NextRound(b, 20, v20, 0x2de92c6f, 0x3e9d7b78, v21);
    var v22 := Vars(0xc2606d6d, 0x9dc68b63, 0xe1f20c33, 0xfe777bbf, 0xe1257970, 0x8ada8930, 0xb0638179, 0xcc899961);
    NextRound(b, 21, v21, 0x4a7484aa, 0x0183fc00, v22);
    var v23 := Vars(0xa7a3623f, 0xc2606d6d, 0x9dc68b63, 0xe1f20c33, 0x49f5114a, 0xe1257970, 0x8ada8930, 0xb0638179);
    NextRound(b, 22, v22, 0x5cb0a9dc, 0x12dcbfdb, v23);
    var v24 := Vars(0xc5d53d8d, 0xa7a3623f, 0xc2606d6d, 0x9dc68b63, 0xaa47c347, 0x49f5114a, 0xe1257970, 0x8ada8930);
    NextRound(b, 23, v23, 0x76f988da, 0xe2e2c38e, v24);
  }

  lemma RoundsTo32(b: Block)
    requires b == Padded()
    ensures VarsAre(b, 32, Vars(0x73b33bf5, 0xea992a22, 0xa0060b30, 0x363482c9, 0xba591112, 0x0109ab3a, 0xade79437, 0x6112a3b7))
  {
    hide VarsAre, WordIs, Padded, Constant;
    Constants3();
    Words3(b);
    RoundsTo24(b);
    var v24 := Vars(0xc5d53d8d, 0xa7a3623f, 0xc2606d6d, 0x9dc68b63, 0xaa47c347, 0x49f5114a, 0xe1257970, 0x8ada8930);
    var v25 := Vars(0x1c2c2838, 0xc5d53d8d, 0xa7a3623f, 0xc2606d6d, 0x2823ef91, 0xaa47c347, 0x49f5114a, 0xe1257970);
    NextRound(b, 24, v24, 0x983e5152, 0xc8215c1a, v25);
    var v26 := Vars(0xcde8037d, 0x1c2c2838, 0xc5d53d8d, 0xa7a3623f, 0x14383d8e, 0x2823ef91, 0xaa47c347, 0x49f5114a);
    NextRound(b, 25, v25, 0xa831c66d, 0xb73679a2, v26);
    var v27 := Vars(0xb62ec4bc, 0xcde8037d, 0x1c2c2838, 0xc5d53d8d, 0xc74c6516, 0x14383d8e, 0x2823ef91, 0xaa47c347);
    NextRound(b, 26, v26, 0xb00327c8, 0xe5bc3909, v27);
    var v28 := Vars(0x77d37528, 0xb62ec4bc, 0xcde8037d, 0x1c2c2838, 0xedffbff8, 0xc74c6516, 0x14383d8e, 0x2823ef91);
    NextRound(b, 27, v27, 0xbf597fc7, 0x32663c5b, v28);
    var v29 := Vars(0x363482c9, 0x77d37528, 0xb62ec4bc, 0xcde8037d, 0x6112a3b7, 0xedffbff8, 0xc74c6516, 0x14383d8e);
    NextRound(b, 28, v28, 0xc6e00bf3, 0x9d209d67, v29);
    var v30 := Vars(0xa0060b30, 0x363482c9, 0x77d37528, 0xb62ec4bc, 0xade79437, 0x6112a3b7, 0xedffbff8, 0xc74c6516);
    NextRound(b, 29, v29, 0xd5a79147, 0xec8726cb, v30);
    var v31 := Vars(0xea992a22, 0xa0060b30, 0x363482c9, 0x77d37528, 0x0109ab3a, 0xade79437, 0x6112a3b7, 0xedffbff8);
    NextRound(b, 30, v30, 0x06ca6351, 0x702138a4, v31);
    var v32 := Vars(0x73b33bf5, 0xea992a22, 0xa0060b30, 0x363482c9, 0xba591112, 0x0109ab3a, 0xade79437, 0x6112a3b7);
    NextRound(b, 31, v31, 0x14292967, 0xd3b7973b, v32);
  }

  lemma RoundsTo40(b: Block)
    requires b == Padded()
    ensures VarsAre(b, 40, Vars(0x79ea687a, 0x6dc57a8a, 0x34df1604, 0x41a65cb1, 0x1efbc0a0, 0xf0781bc8, 0xa507a53d, 0x0772a26b))
  {
    hide VarsAre, WordIs, Padded, Constant;
    Constants4();
    Words4(b);
    RoundsTo32(b);
    var v32 := Vars(0x73b33bf5, 0xea992a22, 0xa0060b30, 0x363482c9, 0xba591112, 0x0109ab3a, 0xade79437, 0x6112a3b7);
    var v33 := Vars(0x98e12507, 0x73b33bf5, 0xea992a22, 0xa0060b30, 0x9cd9f5f6, 0xba591112, 0x0109ab3a, 0xade79437);
    NextRound(b, 32, v32, 0x27b70a85, 0x93f5997f, v33);
    var v34 := Vars(0xfe604df5, 0x98e12507, 0x73b33bf5, 0xea992a22, 0x59249dd3, 0x9cd9f5f6, 0xba591112, 0x0109ab3a);
    NextRound(b, 33, v33, 0x2e1b2138, 0x3b68ba73, v34);
    var v35 := Vars(0xa9a7738c, 0xfe604df5, 0x98e12507, 0x73b33bf5, 0x085f3833, 0x59249dd3, 0x9cd9f5f6, 0xba591112);
    NextRound(b, 34, v34, 0x4d2c6dfc, 0xaff4ffc1, v35);
    var v36 := Vars(0x65a0cfe4, 0xa9a7738c, 0xfe604df5, 0x98e12507, 0xf4b002d6, 0x085f3833, 0x59249dd3, 0x9cd9f5f6);
    NextRound(b, 35, v35, 0x53380d13, 0xf10a5c62, v36);
    var v37 := Vars(0x41a65cb1, 0x65a0cfe4, 0xa9a7738c, 0xfe604df5, 0x0772a26b, 0xf4b002d6, 0x085f3833, 0x59249dd3);
    NextRound(b, 36, v36, 0x650a7354, 0x0a8b3996, v37);
    var v38 := Vars(0x34df1604, 0x41a65cb1, 0x65a0cfe4, 0xa9a7738c, 0xa507a53d, 0x0772a26b, 0xf4b002d6, 0x085f3833);
    NextRound(b, 37, v37, 0x766a0abb, 0x72af830a, v38);
    var v39 := Vars(0x6dc57a8a, 0x34df1604, 0x41a65cb1, 0x65a0cfe4, 0xf0781bc8, 0xa507a53d, 0x0772a26b, 0xf4b002d6);
    NextRound(b, 38, v38, 0x81c2c92e, 0x9409e33e, v39);
    var v40 := Vars(0x79ea687a, 0x6dc57a8a, 0x34df1604, 0x41a65cb1, 0x1efbc0a0, 0xf0781bc8, 0xa507a53d, 0x0772a26b);
    NextRound(b, 39, v39, 0x92722c85, 0x24641522, v40);
  }

  lemma RoundsTo48(b: Block)
    requires b == Padded()
    ensures VarsAre(b, 48, Vars(0x4172328d, 0xa14c14b0, 0x72ab4b91, 0x26628815, 0xfecf0bc6, 0xd57b94a9, 0xb7755da1, 0xa80f11f0))
  {
    hide VarsAre, WordIs, Padded, Constant;
    Constants5();
    Words5(b);
    RoundsTo40(b);
    var v40 := Vars(0x79ea687a, 0x6dc57a8a, 0x34df1604, 0x41a65cb1, 0x1efbc0a0, 0xf0781bc8, 0xa507a53d, 0x0772a26b);
    var v41 := Vars(0xd6670766, 0x79ea687a, 0x6dc57a8a, 0x34df1604, 0x26352d63, 0x1efbc0a0, 0xf0781bc8, 0xa507a53d);
    NextRound(b, 40, v40, 0xa2bfe8a1, 0x9f47bf94, v41);
    var v42 := Vars(0xdf46652f, 0xd6670766, 0x79ea687a, 0x6dc57a8a, 0x838b2711, 0x26352d63, 0x1efbc0a0, 0xf0781bc8);
    NextRound(b, 41, v41, 0xa81a664b, 0xf0a64f5a, v42);
    var v43 := Vars(0x17aa0dfe, 0xdf46652f, 0xd6670766, 0x79ea687a, 0xdecd4715, 0x838b2711, 0x26352d63, 0x1efbc0a0);
    NextRound(b, 42, v42, 0xc24b8b70, 0x3e246a79, v43);
    var v44 := Vars(0x9d4baf93, 0x17aa0dfe, 0xdf46652f, 0xd6670766, 0xfda24c2e, 0xdecd4715, 0x838b2711, 0x26352d63);
    NextRound(b, 43, v43, 0xc76c51a3, 0x27333ba3, v44);
    var v45 := Vars(0x26628815, 0x9d4baf93, 0x17aa0dfe, 0xdf46652f, 0xa80f11f0, 0xfda24c2e, 0xdecd4715, 0x838b2711);
    NextRound(b, 44, v44, 0xd192e819, 0x0c4763f2, v45);
    var v46 := Vars(0x72ab4b91, 0x26628815, 0x9d4baf93, 0x17aa0dfe, 0xb7755da1, 0xa80f11f0, 0xfda24c2e, 0xdecd4715);
    NextRound(b, 45, v45, 0xd6990624, 0x840abf27, v46);
    var v47 := Vars(0xa14c14b0, 0x72ab4b91, 0x26628815, 0x9d4baf93, 0xd57b94a9, 0xb7755da1, 0xa80f11f0, 0xfda24c2e);
    NextRound(b, 46, v46, 0xf40e3585, 0x7a290d5d, v47);
    var v48 := Vars(0x4172328d, 0xa14c14b0, 0x72ab4b91, 0x26628815, 0xfecf0bc6, 0xd57b94a9, 0xb7755da1, 0xa80f11f0);
    NextRound(b, 47, v47, 0x106aa070, 0x065c43da, v48);
  }

  lemma RoundsTo56(b: Block)
    requires b == Padded()
    ensures VarsAre(b, 56, Vars(0x38cc9913, 0x3ec45cdb, 0xf5702fdb, 0x101fd28f, 0x54cb266b, 0xe50e1b4f, 0x9f4787c3, 0x529e7d00))
  {
    hide VarsAre, WordIs, Padded, Constant;
    Constants6();
    Words6(b);
    RoundsTo48(b);
    var v48 := Vars(0x4172328d, 0xa14c14b0, 0x72ab4b91, 0x26628815, 0xfecf0bc6, 0xd57b94a9, 0xb7755da1, 0xa80f11f0);
    var v49 := Vars(0x05757ceb, 0x4172328d, 0xa14c14b0, 0x72ab4b91, 0xbd714038, 0xfecf0bc6, 0xd57b94a9, 0xb7755da1);
    NextRound(b, 48, v48, 0x19a4c116, 0xfb3e89cb, v49);
    var v50 := Vars(0xf11bfaa8, 0x05757ceb, 0x4172328d, 0xa14c14b0, 0x6e5c390c, 0xbd714038, 0xfecf0bc6, 0xd57b94a9);
    NextRound(b, 49, v49, 0x1e376c08, 0xcc7617db, v50);
    var v51 := Vars(0x7a0508a1, 0xf11bfaa8, 0x05757ceb, 0x4172328d, 0x52f1ccf7, 0x6e5c390c, 0xbd714038, 0xfecf0bc6);
    NextRound(b, 50, v50, 0x2748774c, 0xb9e66c34, v51);
    var v52 := Vars(0x886e7a22, 0x7a0508a1, 0xf11bfaa8, 0x05757ceb, 0x49231c1e, 0x52f1ccf7, 0x6e5c390c, 0xbd714038);
    NextRound(b, 51, v51, 0x34b0bcb5, 0xa9993667, v52);
    var v53 := Vars(0x101fd28f, 0x886e7a22, 0x7a0508a1, 0xf11bfaa8, 0x529e7d00, 0x49231c1e, 0x52f1ccf7, 0x6e5c390c);
    NextRound(b, 52, v52, 0x391c0cb3, 0x84badedd, v53);
    var v54 := Vars(0xf5702fdb, 0x101fd28f, 0x886e7a22, 0x7a0508a1, 0x9f4787c3, 0x529e7d00, 0x49231c1e, 0x52f1ccf7);
    NextRound(b, 53, v53, 0x4ed8aa4a, 0xc21462bc, v54);
    var v55 := Vars(0x3ec45cdb, 0xf5702fdb, 0x101fd28f, 0x886e7a22, 0xe50e1b4f, 0x9f4787c3, 0x529e7d00, 0x49231c1e);
    NextRound(b, 54, v54, 0x5b9cca4f, 0x1487472c, v55);
    var v56 := Vars(0x38cc9913, 0x3ec45cdb, 0xf5702fdb, 0x101fd28f, 0x54cb266b, 0xe50e1b4f, 0x9f4787c3, 0x529e7d00);
    NextRound(b, 55, v55, 0x682e6ff3, 0xb20f7a99, v56);
  }

  lemma RoundsTo64(b: Block)
    requires b == Padded()
    ensures VarsAre(b, 64, Vars(0x506e3058, 0xd39a2165, 0x04d24d6c, 0xb85e2ce9, 0x5ef50f24, 0xfb121210, 0x948d25b6, 0x961f4894))
  {
    hide VarsAre, WordIs, Padded, Constant;
    Constants7();
    Words7(b);
    RoundsTo56(b);
    var v56 := Vars(0x38cc9913, 0x3ec45cdb, 0xf5702fdb, 0x101fd28f, 0x54cb266b, 0xe50e1b4f, 0x9f4787c3, 0x529e7d00);
    var v57 := Vars(0xfcd1887b, 0x38cc9913, 0x3ec45cdb, 0xf5702fdb, 0x9b5e906c, 0x54cb266b, 0xe50e1b4f, 0x9f4787c3);
    NextRound(b, 56, v56, 0x748f82ee, 0xef57b9cd, v57);
    var v58 := Vars(0xc062d46f, 0xfcd1887b, 0x38cc9913, 0x3ec45cdb, 0x7e44008e, 0x9b5e906c, 0x54cb266b, 0xe50e1b4f);
    NextRound(b, 57, v57, 0x78a5636f, 0xebe6b238, v58);
    var v59 := Vars(0xffb70472, 0xc062d46f, 0xfcd1887b, 0x38cc9913, 0x6d83bfc6, 0x7e44008e, 0x9b5e906c, 0x54cb266b);
    NextRound(b, 58, v58, 0x84c87814, 0x9fe3095e, v59);
    var v60 := Vars(0xb6ae8fff, 0xffb70472, 0xc062d46f, 0xfcd1887b, 0xb21bad3d, 0x6d83bfc6, 0x7e44008e, 0x9b5e906c);
    NextRound(b, 59, v59, 0x8cc70208, 0x78bc8d4b, v60);
    var v61 := Vars(0xb85e2ce9, 0xb6ae8fff, 0xffb70472, 0xc062d46f, 0x961f4894, 0xb21bad3d, 0x6d83bfc6, 0x7e44008e);
    NextRound(b, 60, v60, 0x90befffa, 0xa43fcf15, v61);
    var v62 := Vars(0x04d24d6c, 0xb85e2ce9, 0xb6ae8fff, 0xffb70472, 0x948d25b6, 0x961f4894, 0xb21bad3d, 0x6d83bfc6);
    NextRound(b, 61, v61, 0xa4506ceb, 0x668b2ff8, v62);
    var v63 := Vars(0xd39a2165, 0x04d24d6c, 0xb85e2ce9, 0xb6ae8fff, 0xfb121210, 0x948d25b6, 0x961f4894, 0xb21bad3d);
    NextRound(b, 62, v62, 0xbef9a3f7, 0xeeaba2cc, v63);
    var v64 := Vars(0x506e3058, 0xd39a2165, 0x04d24d6c, 0xb85e2ce9, 0x5ef50f24, 0xfb121210, 0x948d25b6, 0x961f4894);
    NextRound(b, 63, v63, 0xc67178f2, 0x12b1edeb, v64);
  }

  lemma NoRounds(b: Block)
    ensures VarsAre(b, 0, Vars(0x6a09e667, 0xbb67ae85, 0x3c6ef372, 0xa54ff53a, 0x510e527f, 0x9b05688c, 0x1f83d9ab, 0x5be0cd19))
  {
  }

  lemma SampleBlock(b: Block)
    requires b == Padded()
    ensures Compress(INITIAL, b) == Vars(0xba7816bf, 0x8f01cfea, 0x414140de, 0x5dae2223, 0xb00361a3, 0x96177a9c, 0xb410ff61, 0xf20015ad)
  {
    hide Rounds, Padded;
    RoundsTo64(b);
  }

  lemma TwoMoreWords(words: seq<bv32>, x: bv32, y: bv32)
    ensures BytesOf(words + [x, y]) == BytesOf(words) + WordBytes(x) + WordBytes(y)
  {
    hide WordBytes, BytesOf;
    OneMoreWord(words, x);
    OneMoreWord(words + [x], y);
    assert words + [x] + [y] == words + [x, y];
  }

  lemma FourMoreWords(words: seq<bv32>, x: bv32, y: bv32, z: bv32, u: bv32)
    ensures BytesOf(words + [x, y, z, u]) == BytesOf(words) + WordBytes(x) + WordBytes(y) + WordBytes(z) + WordBytes(u)
  {
    hide WordBytes, BytesOf;
    TwoMoreWords(words, x, y);
    TwoMoreWords(words + [x, y], z, u);
    assert words + [x, y] + [z, u] == words + [x, y, z, u];
  }

  lemma DigestWords(v: Vars)
    ensures DigestBytes(v) == [] + WordBytes(v.a) + WordBytes(v.b) + WordBytes(v.c) + WordBytes(v.d)
      + WordBytes(v.e) + WordBytes(v.f) + WordBytes(v.g) + WordBytes(v.h)
  {
    hide BytesOf, WordBytes;
    NoBytes();
    var half := [v.a, v.b, v.c, v.d];
    FourMoreWords([], v.a, v.b, v.c, v.d);
    FourMoreWords(half, v.e, v.f, v.g, v.h);
    assert [] + half == half;
    assert half + [v.e, v.f, v.g, v.h] == [v.a, v.b, v.c, v.d, v.e, v.f, v.g, v.h];
  }

  lemma SampleBytes()
    ensures WordBytes(0xba7816bf) + WordBytes(0x8f01cfea) + WordBytes(0x414140de) + WordBytes(0x5dae2223)
      + WordBytes(0xb00361a3) + WordBytes(0x96177a9c) + WordBytes(0xb410ff61) + WordBytes(0xf20015ad) == [
      0xba, 0x78, 0x16, 0xbf, 0x8f, 0x01, 0xcf, 0xea, 0x41, 0x41, 0x40, 0xde, 0x5d, 0xae, 0x22, 0x23,
      0xb0, 0x03, 0x61, 0xa3, 0x96, 0x17, 0x7a, 0x9c, 0xb4, 0x10, 0xff, 0x61, 0xf2, 0x00, 0x15, 0xad]
  {
  }

  /** ba7816bf 8f01cfea 414140de 5dae2223 b00361a3 96177a9c b410ff61 f20015ad */
  lemma SampleDigest()
    ensures Sha256(Message()) == [
      0xba, 0x78, 0x16, 0xbf, 0x8f, 0x01, 0xcf, 0xea, 0x41, 0x41, 0x40, 0xde, 0x5d, 0xae, 0x22, 0x23,
      0xb0, 0x03, 0x61, 0xa3, 0x96, 0x17, 0x7a, 0x9c, 0xb4, 0x10, 0xff, 0x61, 0xf2, 0x00, 0x15, 0xad]
  {
    hide HashBlocks, Pad, Padded, Compress, DigestBytes, WordBytes;
    PaddedCorrect();
    OneBlock(INITIAL, Padded());
    SampleBlock(Padded());
    DigestWords(Compress(INITIAL, Padded()));
    SampleBytes();
  }
}
