/** A message whose SHA-1 digest is published with FIPS 180-4. */
module Sha1Values {
  import opened Blocks
  import opened Sha1

  // ----- the message schedule

  /** Word t of the schedule, from four earlier ones. */
  lemma Mixed(block: seq<Byte>, t: nat, x: Word, y: Word, z: Word, v: Word, w: Word)
    requires t >= 16 && W(block, t - 3) == x && W(block, t - 8) == y && W(block, t - 14) == z && W(block, t - 16) == v
    requires Mix(x, y, z, v) == w
    ensures W(block, t) == w
  {
    hide Mix;
  }

  /** The block of "abc". */
  ghost predicate AbcBlock(block: seq<Byte>) {
    && W(block, 0) == 0x61626380 && W(block, 1) == 0 && W(block, 2) == 0 && W(block, 3) == 0
    && W(block, 4) == 0 && W(block, 5) == 0 && W(block, 6) == 0 && W(block, 7) == 0
    && W(block, 8) == 0 && W(block, 9) == 0 && W(block, 10) == 0 && W(block, 11) == 0
    && W(block, 12) == 0 && W(block, 13) == 0 && W(block, 14) == 0 && W(block, 15) == 0x00000018
  }

  lemma Scheduled1(block: seq<Byte>)
    requires AbcBlock(block)
    ensures W(block, 16) == 0xc2c4c700 && W(block, 17) == 0
    ensures W(block, 18) == 0x00000030 && W(block, 19) == 0x85898e01
    ensures W(block, 20) == 0 && W(block, 21) == 0x00000060
    ensures W(block, 22) == 0x0b131c03 && W(block, 23) == 0x00000030
    ensures W(block, 24) == 0x85898ec1 && W(block, 25) == 0x16263806
    ensures W(block, 26) == 0 && W(block, 27) == 0x00000180
    ensures W(block, 28) == 0x2c4c700c && W(block, 29) == 0x000000f0
    ensures W(block, 30) == 0x93afb507 && W(block, 31) == 0x5898e048
  {
    hide W;
    Mixed(block, 16, 0, 0, 0, 0x61626380, 0xc2c4c700);
    Mixed(block, 17, 0, 0, 0, 0, 0);
    Mixed(block, 18, 0x00000018, 0, 0, 0, 0x00000030);
    Mixed(block, 19, 0xc2c4c700, 0, 0, 0, 0x85898e01);
    Mixed(block, 20, 0, 0, 0, 0, 0);
    Mixed(block, 21, 0x00000030, 0, 0, 0, 0x00000060);
    Mixed(block, 22, 0x85898e01, 0, 0, 0, 0x0b131c03);
    Mixed(block, 23, 0, 0x00000018, 0, 0, 0x00000030);
    Mixed(block, 24, 0x00000060, 0xc2c4c700, 0, 0, 0x85898ec1);
    Mixed(block, 25, 0x0b131c03, 0, 0, 0, 0x16263806);
    Mixed(block, 26, 0x00000030, 0x00000030, 0, 0, 0);
    Mixed(block, 27, 0x85898ec1, 0x85898e01, 0, 0, 0x00000180);
    Mixed(block, 28, 0x16263806, 0, 0, 0, 0x2c4c700c);
    Mixed(block, 29, 0, 0x00000060, 0x00000018, 0, 0x000000f0);
    Mixed(block, 30, 0x00000180, 0x0b131c03, 0xc2c4c700, 0, 0x93afb507);
    Mixed(block, 31, 0x2c4c700c, 0x00000030, 0, 0x00000018, 0x5898e048);
  }

  lemma Scheduled2(block: seq<Byte>)
    requires AbcBlock(block)
    ensures W(block, 32) == 0x8e9a9202 && W(block, 33) == 0x00000600
    ensures W(block, 34) == 0xb131c0f0 && W(block, 35) == 0x16263bc6
    ensures W(block, 36) == 0x4ebed41e && W(block, 37) == 0x626380a1
    ensures W(block, 38) == 0x16263806 && W(block, 39) == 0x000018c0
    ensures W(block, 40) == 0xd2e138c4 && W(block, 41) == 0x00000f00
    ensures W(block, 42) == 0x3afb5079 && W(block, 43) == 0x898e04e5
    ensures W(block, 44) == 0xe2ba3c2b && W(block, 45) == 0x000060c0
    ensures W(block, 46) == 0x053a37cd && W(block, 47) == 0x74458547
  {
    hide W;
    Scheduled1(block);
    Mixed(block, 32, 0x000000f0, 0x85898ec1, 0x00000030, 0xc2c4c700, 0x8e9a9202);
    Mixed(block, 33, 0x93afb507, 0x16263806, 0x85898e01, 0, 0x00000600);
    Mixed(block, 34, 0x5898e048, 0, 0, 0x00000030, 0xb131c0f0);
    Mixed(block, 35, 0x8e9a9202, 0x00000180, 0x00000060, 0x85898e01, 0x16263bc6);
    Mixed(block, 36, 0x00000600, 0x2c4c700c, 0x0b131c03, 0, 0x4ebed41e);
    Mixed(block, 37, 0xb131c0f0, 0x000000f0, 0x00000030, 0x00000060, 0x626380a1);
    Mixed(block, 38, 0x16263bc6, 0x93afb507, 0x85898ec1, 0x0b131c03, 0x16263806);
    Mixed(block, 39, 0x4ebed41e, 0x5898e048, 0x16263806, 0x00000030, 0x000018c0);
    Mixed(block, 40, 0x626380a1, 0x8e9a9202, 0, 0x85898ec1, 0xd2e138c4);
    Mixed(block, 41, 0x16263806, 0x00000600, 0x00000180, 0x16263806, 0x00000f00);
    Mixed(block, 42, 0x000018c0, 0xb131c0f0, 0x2c4c700c, 0, 0x3afb5079);
    Mixed(block, 43, 0xd2e138c4, 0x16263bc6, 0x000000f0, 0x00000180, 0x898e04e5);
    Mixed(block, 44, 0x00000f00, 0x4ebed41e, 0x93afb507, 0x2c4c700c, 0xe2ba3c2b);
    Mixed(block, 45, 0x3afb5079, 0x626380a1, 0x5898e048, 0x000000f0, 0x000060c0);
    Mixed(block, 46, 0x898e04e5, 0x16263806, 0x8e9a9202, 0x93afb507, 0x053a37cd);
    Mixed(block, 47, 0xe2ba3c2b, 0x000018c0, 0x00000600, 0x5898e048, 0x74458547);
  }

  lemma Scheduled3(block: seq<Byte>)
    requires AbcBlock(block)
    ensures W(block, 48) == 0xda9415ed && W(block, 49) == 0x26380a16
    ensures W(block, 50) == 0x626383a1 && W(block, 51) == 0x4ebf54de
    ensures W(block, 52) == 0x3835b44b && W(block, 53) == 0x0000f600
    ensures W(block, 54) == 0x1e84c7a3 && W(block, 55) == 0x98e04d98
    ensures W(block, 56) == 0x651d16a0 && W(block, 57) == 0x62658ca1
    ensures W(block, 58) == 0x458544d6 && W(block, 59) == 0x44584cb7
    ensures W(block, 60) == 0x7ba06619 && W(block, 61) == 0x6380aea2
    ensures W(block, 62) == 0x0ae55269 && W(block, 63) == 0x627b49a1
  {
    hide W;
    Scheduled2(block);
    Mixed(block, 48, 0x000060c0, 0xd2e138c4, 0xb131c0f0, 0x8e9a9202, 0xda9415ed);
    Mixed(block, 49, 0x053a37cd, 0x00000f00, 0x16263bc6, 0x00000600, 0x26380a16);
    Mixed(block, 50, 0x74458547, 0x3afb5079, 0x4ebed41e, 0xb131c0f0, 0x626383a1);
    Mixed(block, 51, 0xda9415ed, 0x898e04e5, 0x626380a1, 0x16263bc6, 0x4ebf54de);
    Mixed(block, 52, 0x26380a16, 0xe2ba3c2b, 0x16263806, 0x4ebed41e, 0x3835b44b);
    Mixed(block, 53, 0x626383a1, 0x000060c0, 0x000018c0, 0x626380a1, 0x0000f600);
    Mixed(block, 54, 0x4ebf54de, 0x053a37cd, 0xd2e138c4, 0x16263806, 0x1e84c7a3);
    Mixed(block, 55, 0x3835b44b, 0x74458547, 0x00000f00, 0x000018c0, 0x98e04d98);
    Mixed(block, 56, 0x0000f600, 0xda9415ed, 0x3afb5079, 0xd2e138c4, 0x651d16a0);
    Mixed(block, 57, 0x1e84c7a3, 0x26380a16, 0x898e04e5, 0x00000f00, 0x62658ca1);
    Mixed(block, 58, 0x98e04d98, 0x626383a1, 0xe2ba3c2b, 0x3afb5079, 0x458544d6);
    Mixed(block, 59, 0x651d16a0, 0x4ebf54de, 0x000060c0, 0x898e04e5, 0x44584cb7);
    Mixed(block, 60, 0x62658ca1, 0x3835b44b, 0x053a37cd, 0xe2ba3c2b, 0x7ba06619);
    Mixed(block, 61, 0x458544d6, 0x0000f600, 0x74458547, 0x000060c0, 0x6380aea2);
    Mixed(block, 62, 0x44584cb7, 0x1e84c7a3, 0xda9415ed, 0x053a37cd, 0x0ae55269);
    Mixed(block, 63, 0x7ba06619, 0x98e04d98, 0x26380a16, 0x74458547, 0x627b49a1);
  }

  lemma Scheduled4(block: seq<Byte>)
    requires AbcBlock(block)
    ensures W(block, 64) == 0x7cd45c9d && W(block, 65) == 0x000f0000
    ensures W(block, 66) == 0xfb50753a && W(block, 67) == 0xec6765e8
    ensures W(block, 68) == 0xba3c2be2 && W(block, 69) == 0x0060c000
    ensures W(block, 70) == 0x3a37cd05 && W(block, 71) == 0x458546f4
    ensures W(block, 72) == 0xb8599dd6 && W(block, 73) == 0x380a1a26
    ensures W(block, 74) == 0x01e02203 && W(block, 75) == 0xe7cc3456
    ensures W(block, 76) == 0xe6e60b69 && W(block, 77) == 0x00f60a00
    ensures W(block, 78) == 0x5795ef4f && W(block, 79) == 0x822e0879
  {
    hide W;
    Scheduled3(block);
    Mixed(block, 64, 0x6380aea2, 0x651d16a0, 0x626383a1, 0xda9415ed, 0x7cd45c9d);
    Mixed(block, 65, 0x0ae55269, 0x62658ca1, 0x4ebf54de, 0x26380a16, 0x000f0000);
    Mixed(block, 66, 0x627b49a1, 0x458544d6, 0x3835b44b, 0x626383a1, 0xfb50753a);
    Mixed(block, 67, 0x7cd45c9d, 0x44584cb7, 0x0000f600, 0x4ebf54de, 0xec6765e8);
    Mixed(block, 68, 0x000f0000, 0x7ba06619, 0x1e84c7a3, 0x3835b44b, 0xba3c2be2);
    Mixed(block, 69, 0xfb50753a, 0x6380aea2, 0x98e04d98, 0x0000f600, 0x0060c000);
    Mixed(block, 70, 0xec6765e8, 0x0ae55269, 0x651d16a0, 0x1e84c7a3, 0x3a37cd05);
    Mixed(block, 71, 0xba3c2be2, 0x627b49a1, 0x62658ca1, 0x98e04d98, 0x458546f4);
    Mixed(block, 72, 0x0060c000, 0x7cd45c9d, 0x458544d6, 0x651d16a0, 0xb8599dd6);
    Mixed(block, 73, 0x3a37cd05, 0x000f0000, 0x44584cb7, 0x62658ca1, 0x380a1a26);
    Mixed(block, 74, 0x458546f4, 0xfb50753a, 0x7ba06619, 0x458544d6, 0x01e02203);
    Mixed(block, 75, 0xb8599dd6, 0xec6765e8, 0x6380aea2, 0x44584cb7, 0xe7cc3456);
    Mixed(block, 76, 0x380a1a26, 0xba3c2be2, 0x0ae55269, 0x7ba06619, 0xe6e60b69);
    Mixed(block, 77, 0x01e02203, 0x0060c000, 0x627b49a1, 0x6380aea2, 0x00f60a00);
    Mixed(block, 78, 0xe7cc3456, 0x3a37cd05, 0x7cd45c9d, 0x0ae55269, 0x5795ef4f);
    Mixed(block, 79, 0xe6e60b69, 0x458546f4, 0x000f0000, 0x627b49a1, 0x822e0879);
  }

  // ----- the rounds

  /** Round t makes the word v, and turns b to b'. */
  lemma Go(block: seq<Byte>, t: nat, w: Word, a: Word, b: Word, c: Word, d: Word, e: Word, v: Word, b': Word)
    requires t < 80 && W(block, t) == w
    requires Turn(Five(a, b, c, d, e), FipsF(t, b, c, d), w, K(t)) == Five(v, a, b', c, d)
    ensures Turns(Five(a, b, c, d, e), block, t) == Turns(Five(v, a, b', c, d), block, t + 1)
  {
    hide Turn, FipsF, K, W;
  }

  lemma Rounds1(block: seq<Byte>)
    requires AbcBlock(block)
    ensures Turns(Five(0x67452301, 0xefcdab89, 0x98badcfe, 0x10325476, 0xc3d2e1f0), block, 0) ==
      Turns(Five(0x20bdd62f, 0x196bee77, 0x644a3da5, 0x1181ed99, 0x18c623f9), block, 16)
  {
    hide Turns, W;
    Go(block, 0, 0x61626380, 0x67452301, 0xefcdab89, 0x98badcfe, 0x10325476, 0xc3d2e1f0,
      0x0116fc33, 0x7bf36ae2);
    Go(block, 1, 0, 0x0116fc33, 0x67452301, 0x7bf36ae2, 0x98badcfe, 0x10325476,
      0x8990536d, 0x59d148c0);
    Go(block, 2, 0, 0x8990536d, 0x0116fc33, 0x59d148c0, 0x7bf36ae2, 0x98badcfe,
      0xa1390f08, 0xc045bf0c);
    Go(block, 3, 0, 0xa1390f08, 0x8990536d, 0xc045bf0c, 0x59d148c0, 0x7bf36ae2,
      0xcdd8e11b, 0x626414db);
    Go(block, 4, 0, 0xcdd8e11b, 0xa1390f08, 0x626414db, 0xc045bf0c, 0x59d148c0,
      0xcfd499de, 0x284e43c2);
    Go(block, 5, 0, 0xcfd499de, 0xcdd8e11b, 0x284e43c2, 0x626414db, 0xc045bf0c,
      0x3fc7ca40, 0xf3763846);
    Go(block, 6, 0, 0x3fc7ca40, 0xcfd499de, 0xf3763846, 0x284e43c2, 0x626414db,
      0x993e30c1, 0xb3f52677);
    Go(block, 7, 0, 0x993e30c1, 0x3fc7ca40, 0xb3f52677, 0xf3763846, 0x284e43c2,
      0x9e8c07d4, 0x0ff1f290);
    Go(block, 8, 0, 0x9e8c07d4, 0x993e30c1, 0x0ff1f290, 0xb3f52677, 0xf3763846,
      0x4b6ae328, 0x664f8c30);
    Go(block, 9, 0, 0x4b6ae328, 0x9e8c07d4, 0x664f8c30, 0x0ff1f290, 0xb3f52677,
      0x8351f929, 0x27a301f5);
    Go(block, 10, 0, 0x8351f929, 0x4b6ae328, 0x27a301f5, 0x664f8c30, 0x0ff1f290,
      0xfbda9e89, 0x12dab8ca);
    Go(block, 11, 0, 0xfbda9e89, 0x8351f929, 0x12dab8ca, 0x27a301f5, 0x664f8c30,
      0x63188fe4, 0x60d47e4a);
    Go(block, 12, 0, 0x63188fe4, 0xfbda9e89, 0x60d47e4a, 0x12dab8ca, 0x27a301f5,
      0x4607b664, 0x7ef6a7a2);
    Go(block, 13, 0, 0x4607b664, 0x63188fe4, 0x7ef6a7a2, 0x60d47e4a, 0x12dab8ca,
      0x9128f695, 0x18c623f9);
    Go(block, 14, 0, 0x9128f695, 0x4607b664, 0x18c623f9, 0x7ef6a7a2, 0x60d47e4a,
      0x196bee77, 0x1181ed99);
    Go(block, 15, 0x00000018, 0x196bee77, 0x9128f695, 0x1181ed99, 0x18c623f9, 0x7ef6a7a2,
      0x20bdd62f, 0x644a3da5);
  }

  lemma Rounds2(block: seq<Byte>)
    requires AbcBlock(block)
    ensures Turns(Five(0x20bdd62f, 0x196bee77, 0x644a3da5, 0x1181ed99, 0x18c623f9), block, 16) ==
      Turns(Five(0x3b845d33, 0x1267b407, 0x717eebd7, 0xa0dc2d4b, 0xd2aa1365), block, 32)
  {
    hide Turns, W;
    Scheduled1(block);
    Go(block, 16, 0xc2c4c700, 0x20bdd62f, 0x196bee77, 0x644a3da5, 0x1181ed99, 0x18c623f9,
      0x4e925823, 0xc65afb9d);
    Go(block, 17, 0, 0x4e925823, 0x20bdd62f, 0xc65afb9d, 0x644a3da5, 0x1181ed99,
      0x82aa6728, 0xc82f758b);
    Go(block, 18, 0x00000030, 0x82aa6728, 0x4e925823, 0xc82f758b, 0xc65afb9d, 0x644a3da5,
      0xdc64901d, 0xd3a49608);
    Go(block, 19, 0x85898e01, 0xdc64901d, 0x82aa6728, 0xd3a49608, 0xc82f758b, 0xc65afb9d,
      0xfd9e1d7d, 0x20aa99ca);
    Go(block, 20, 0, 0xfd9e1d7d, 0xdc64901d, 0x20aa99ca, 0xd3a49608, 0xc82f758b,
      0x1a37b0ca, 0x77192407);
    Go(block, 21, 0x00000060, 0x1a37b0ca, 0xfd9e1d7d, 0x77192407, 0x20aa99ca, 0xd3a49608,
      0x33a23bfc, 0x7f67875f);
    Go(block, 22, 0x0b131c03, 0x33a23bfc, 0x1a37b0ca, 0x7f67875f, 0x77192407, 0x20aa99ca,
      0x21283486, 0x868dec32);
    Go(block, 23, 0x00000030, 0x21283486, 0x33a23bfc, 0x868dec32, 0x7f67875f, 0x77192407,
      0xd541f12d, 0x0ce88eff);
    Go(block, 24, 0x85898ec1, 0xd541f12d, 0x21283486, 0x0ce88eff, 0x868dec32, 0x7f67875f,
      0xc7567dc6, 0x884a0d21);
    Go(block, 25, 0x16263806, 0xc7567dc6, 0xd541f12d, 0x884a0d21, 0x0ce88eff, 0x868dec32,
      0x48413ba4, 0x75507c4b);
    Go(block, 26, 0, 0x48413ba4, 0xc7567dc6, 0x75507c4b, 0x884a0d21, 0x0ce88eff,
      0xbe35fbd5, 0xb1d59f71);
    Go(block, 27, 0x00000180, 0xbe35fbd5, 0x48413ba4, 0xb1d59f71, 0x75507c4b, 0x884a0d21,
      0x4aa84d97, 0x12104ee9);
    Go(block, 28, 0x2c4c700c, 0x4aa84d97, 0xbe35fbd5, 0x12104ee9, 0xb1d59f71, 0x75507c4b,
      0x8370b52e, 0x6f8d7ef5);
    Go(block, 29, 0x000000f0, 0x8370b52e, 0x4aa84d97, 0x6f8d7ef5, 0x12104ee9, 0xb1d59f71,
      0xc5fbaf5d, 0xd2aa1365);
    Go(block, 30, 0x93afb507, 0xc5fbaf5d, 0x8370b52e, 0xd2aa1365, 0x6f8d7ef5, 0x12104ee9,
      0x1267b407, 0xa0dc2d4b);
    Go(block, 31, 0x5898e048, 0x1267b407, 0xc5fbaf5d, 0xa0dc2d4b, 0xd2aa1365, 0x6f8d7ef5,
      0x3b845d33, 0x717eebd7);
  }

  lemma Rounds3(block: seq<Byte>)
    requires AbcBlock(block)
    ensures Turns(Five(0x3b845d33, 0x1267b407, 0x717eebd7, 0xa0dc2d4b, 0xd2aa1365), block, 32) ==
      Turns(Five(0xbead02ca, 0xa01b846c, 0x8714787c, 0x503ca382, 0xfb86c6ab), block, 48)
  {
    hide Turns, W;
    Scheduled2(block);
    Go(block, 32, 0x8e9a9202, 0x3b845d33, 0x1267b407, 0x717eebd7, 0xa0dc2d4b, 0xd2aa1365,
      0x046faa0a, 0xc499ed01);
    Go(block, 33, 0x00000600, 0x046faa0a, 0x3b845d33, 0xc499ed01, 0x717eebd7, 0xa0dc2d4b,
      0x2c0ebc11, 0xcee1174c);
    Go(block, 34, 0xb131c0f0, 0x2c0ebc11, 0x046faa0a, 0xcee1174c, 0xc499ed01, 0x717eebd7,
      0x21796ad4, 0x811bea82);
    Go(block, 35, 0x16263bc6, 0x21796ad4, 0x2c0ebc11, 0x811bea82, 0xcee1174c, 0xc499ed01,
      0xdcbbb0cb, 0x4b03af04);
    Go(block, 36, 0x4ebed41e, 0xdcbbb0cb, 0x21796ad4, 0x4b03af04, 0x811bea82, 0xcee1174c,
      0x0f511fd8, 0x085e5ab5);
    Go(block, 37, 0x626380a1, 0x0f511fd8, 0xdcbbb0cb, 0x085e5ab5, 0x4b03af04, 0x811bea82,
      0xdc63973f, 0xf72eec32);
    Go(block, 38, 0x16263806, 0xdc63973f, 0x0f511fd8, 0xf72eec32, 0x085e5ab5, 0x4b03af04,
      0x4c986405, 0x03d447f6);
    Go(block, 39, 0x000018c0, 0x4c986405, 0xdc63973f, 0x03d447f6, 0xf72eec32, 0x085e5ab5,
      0x32de1cba, 0xf718e5cf);
    Go(block, 40, 0xd2e138c4, 0x32de1cba, 0x4c986405, 0xf718e5cf, 0x03d447f6, 0xf72eec32,
      0xfc87dedf, 0x53261901);
    Go(block, 41, 0x00000f00, 0xfc87dedf, 0x32de1cba, 0x53261901, 0xf718e5cf, 0x03d447f6,
      0x970a0d5c, 0x8cb7872e);
    Go(block, 42, 0x3afb5079, 0x970a0d5c, 0xfc87dedf, 0x8cb7872e, 0x53261901, 0xf718e5cf,
      0x7f193dc5, 0xff21f7b7);
    Go(block, 43, 0x898e04e5, 0x7f193dc5, 0x970a0d5c, 0xff21f7b7, 0x8cb7872e, 0x53261901,
      0xee1b1aaf, 0x25c28357);
    Go(block, 44, 0xe2ba3c2b, 0xee1b1aaf, 0x7f193dc5, 0x25c28357, 0xff21f7b7, 0x8cb7872e,
      0x40f28e09, 0x5fc64f71);
    Go(block, 45, 0x000060c0, 0x40f28e09, 0xee1b1aaf, 0x5fc64f71, 0x25c28357, 0xff21f7b7,
      0x1c51e1f2, 0xfb86c6ab);
    Go(block, 46, 0x053a37cd, 0x1c51e1f2, 0x40f28e09, 0xfb86c6ab, 0x5fc64f71, 0x25c28357,
      0xa01b846c, 0x503ca382);
    Go(block, 47, 0x74458547, 0xa01b846c, 0x1c51e1f2, 0x503ca382, 0xfb86c6ab, 0x5fc64f71,
      0xbead02ca, 0x8714787c);
  }

  lemma Rounds4(block: seq<Byte>)
    requires AbcBlock(block)
    ensures Turns(Five(0xbead02ca, 0xa01b846c, 0x8714787c, 0x503ca382, 0xfb86c6ab), block, 48) ==
      Turns(Five(0x6b61c9e1, 0xb66c020b, 0x9523272c, 0xf5d5b051, 0x8fd4b796), block, 64)
  {
    hide Turns, W;
    Scheduled3(block);
    Go(block, 48, 0xda9415ed, 0xbead02ca, 0xa01b846c, 0x8714787c, 0x503ca382, 0xfb86c6ab,
      0xbaf39337, 0x2806e11b);
    Go(block, 49, 0x26380a16, 0xbaf39337, 0xbead02ca, 0x2806e11b, 0x8714787c, 0x503ca382,
      0x120731c5, 0xafab40b2);
    Go(block, 50, 0x626383a1, 0x120731c5, 0xbaf39337, 0xafab40b2, 0x2806e11b, 0x8714787c,
      0x641db2ce, 0xeebce4cd);
    Go(block, 51, 0x4ebf54de, 0x641db2ce, 0x120731c5, 0xeebce4cd, 0xafab40b2, 0x2806e11b,
      0x3847ad66, 0x4481cc71);
    Go(block, 52, 0x3835b44b, 0x3847ad66, 0x641db2ce, 0x4481cc71, 0xeebce4cd, 0xafab40b2,
      0xe490436d, 0x99076cb3);
    Go(block, 53, 0x0000f600, 0xe490436d, 0x3847ad66, 0x99076cb3, 0x4481cc71, 0xeebce4cd,
      0x27e9f1d8, 0x8e11eb59);
    Go(block, 54, 0x1e84c7a3, 0x27e9f1d8, 0xe490436d, 0x8e11eb59, 0x99076cb3, 0x4481cc71,
      0x7b71f76d, 0x792410db);
    Go(block, 55, 0x98e04d98, 0x7b71f76d, 0x27e9f1d8, 0x792410db, 0x8e11eb59, 0x99076cb3,
      0x5e6456af, 0x09fa7c76);
    Go(block, 56, 0x651d16a0, 0x5e6456af, 0x7b71f76d, 0x09fa7c76, 0x792410db, 0x8e11eb59,
      0xc846093f, 0x5edc7ddb);
    Go(block, 57, 0x62658ca1, 0xc846093f, 0x5e6456af, 0x5edc7ddb, 0x09fa7c76, 0x792410db,
      0xd262ff50, 0xd79915ab);
    Go(block, 58, 0x458544d6, 0xd262ff50, 0xc846093f, 0xd79915ab, 0x5edc7ddb, 0x09fa7c76,
      0x09d785fd, 0xf211824f);
    Go(block, 59, 0x44584cb7, 0x09d785fd, 0xd262ff50, 0xf211824f, 0xd79915ab, 0x5edc7ddb,
      0x3f52de5a, 0x3498bfd4);
    Go(block, 60, 0x7ba06619, 0x3f52de5a, 0x09d785fd, 0x3498bfd4, 0xf211824f, 0xd79915ab,
      0xd756c147, 0x4275e17f);
    Go(block, 61, 0x6380aea2, 0xd756c147, 0x3f52de5a, 0x4275e17f, 0x3498bfd4, 0xf211824f,
      0x548c9cb2, 0x8fd4b796);
    Go(block, 62, 0x0ae55269, 0x548c9cb2, 0xd756c147, 0x8fd4b796, 0x4275e17f, 0x3498bfd4,
      0xb66c020b, 0xf5d5b051);
    Go(block, 63, 0x627b49a1, 0xb66c020b, 0x548c9cb2, 0xf5d5b051, 0x8fd4b796, 0x4275e17f,
      0x6b61c9e1, 0x9523272c);
  }

  lemma Rounds5(block: seq<Byte>)
    requires AbcBlock(block)
    ensures Turns(Five(0x6b61c9e1, 0xb66c020b, 0x9523272c, 0xf5d5b051, 0x8fd4b796), block, 64) ==
      Turns(Five(0x42541b35, 0x5738d5e1, 0x21834873, 0x681e6df6, 0xd8fdf6ad), block, 80)
  {
    hide Turns, W;
    Scheduled4(block);
    Go(block, 64, 0x7cd45c9d, 0x6b61c9e1, 0xb66c020b, 0x9523272c, 0xf5d5b051, 0x8fd4b796,
      0x19dfa7ac, 0xed9b0082);
    Go(block, 65, 0x000f0000, 0x19dfa7ac, 0x6b61c9e1, 0xed9b0082, 0x9523272c, 0xf5d5b051,
      0x101655f9, 0x5ad87278);
    Go(block, 66, 0xfb50753a, 0x101655f9, 0x19dfa7ac, 0x5ad87278, 0xed9b0082, 0x9523272c,
      0x0c3df2b4, 0x0677e9eb);
    Go(block, 67, 0xec6765e8, 0x0c3df2b4, 0x101655f9, 0x0677e9eb, 0x5ad87278, 0xed9b0082,
      0x78dd4d2b, 0x4405957e);
    Go(block, 68, 0xba3c2be2, 0x78dd4d2b, 0x0c3df2b4, 0x4405957e, 0x0677e9eb, 0x5ad87278,
      0x497093c0, 0x030f7cad);
    Go(block, 69, 0x0060c000, 0x497093c0, 0x78dd4d2b, 0x030f7cad, 0x4405957e, 0x0677e9eb,
      0x3f2588c2, 0xde37534a);
    Go(block, 70, 0x3a37cd05, 0x3f2588c2, 0x497093c0, 0xde37534a, 0x030f7cad, 0x4405957e,
      0xc199f8c7, 0x125c24f0);
    Go(block, 71, 0x458546f4, 0xc199f8c7, 0x3f2588c2, 0x125c24f0, 0xde37534a, 0x030f7cad,
      0x39859de7, 0x8fc96230);
    Go(block, 72, 0xb8599dd6, 0x39859de7, 0xc199f8c7, 0x8fc96230, 0x125c24f0, 0xde37534a,
      0xedb42de4, 0xf0667e31);
    Go(block, 73, 0x380a1a26, 0xedb42de4, 0x39859de7, 0xf0667e31, 0x8fc96230, 0x125c24f0,
      0x11793f6f, 0xce616779);
    Go(block, 74, 0x01e02203, 0x11793f6f, 0xedb42de4, 0xce616779, 0xf0667e31, 0x8fc96230,
      0x5ee76897, 0x3b6d0b79);
    Go(block, 75, 0xe7cc3456, 0x5ee76897, 0x11793f6f, 0x3b6d0b79, 0xce616779, 0xf0667e31,
      0x63f7dab7, 0xc45e4fdb);
    Go(block, 76, 0xe6e60b69, 0x63f7dab7, 0x5ee76897, 0xc45e4fdb, 0x3b6d0b79, 0xce616779,
      0xa079b7d9, 0xd7b9da25);
    Go(block, 77, 0x00f60a00, 0xa079b7d9, 0x63f7dab7, 0xd7b9da25, 0xc45e4fdb, 0x3b6d0b79,
      0x860d21cc, 0xd8fdf6ad);
    Go(block, 78, 0x5795ef4f, 0x860d21cc, 0xa079b7d9, 0xd8fdf6ad, 0xd7b9da25, 0xc45e4fdb,
      0x5738d5e1, 0x681e6df6);
    Go(block, 79, 0x822e0879, 0x5738d5e1, 0x860d21cc, 0x681e6df6, 0xd8fdf6ad, 0xd7b9da25,
      0x42541b35, 0x21834873);
  }

  lemma LastTurn(s: Five, block: seq<Byte>)
    ensures Turns(s, block, 80) == s
  {
  }

  // ----- the digest

  lemma WordsOf(block: seq<Byte>)
    requires |block| == BLOCK && block[0] == 0x61 && block[1] == 0x62 && block[2] == 0x63 && block[3] == 0x80
    requires block[63] == 24 && forall i :: 4 <= i < 63 ==> block[i] == 0
    ensures AbcBlock(block)
  {
    hide WordAt;
    FourBytes(block, 0, 0x61, 0x62, 0x63, 0x80, 0x61626380);
    FourBytes(block, 15, 0, 0, 0, 24, 0x00000018);
    forall n | 1 <= n < 15 ensures WordAt(block, n) == 0 { FourBytes(block, n, 0, 0, 0, 0, 0); }
  }

  lemma FourBytes(block: seq<Byte>, n: nat, a: Word, b: Word, c: Word, d: Word, w: Word)
    requires |block| == BLOCK && n < 16 && (a << 24) | (b << 16) | (c << 8) | d == w
    requires block[4 * n] as bv32 == a && block[4 * n + 1] as bv32 == b
    requires block[4 * n + 2] as bv32 == c && block[4 * n + 3] as bv32 == d
    ensures WordAt(block, n) == w
  {
  }

  lemma PaddedAbc()
    ensures var p := Padded([0x61, 0x62, 0x63]);
      && |p| == BLOCK && p[0] == 0x61 && p[1] == 0x62 && p[2] == 0x63 && p[3] == 0x80
      && p[63] == 24 && forall i :: 4 <= i < 63 ==> p[i] == 0
  {
    assert LengthOf(3) == [0, 0, 0, 0, 0, 0, 0, 24];
  }

  lemma Compressed(block: seq<Byte>)
    requires AbcBlock(block)
    ensures Compress(INIT, block) == Five(0xa9993e36, 0x4706816a, 0xba3e2571, 0x7850c26c, 0x9cd0d89d)
  {
    hide Turns, AbcBlock, W;
    Rounds1(block);
    Rounds2(block);
    Rounds3(block);
    Rounds4(block);
    Rounds5(block);
    LastTurn(Five(0x42541b35, 0x5738d5e1, 0x21834873, 0x681e6df6, 0xd8fdf6ad), block);
  }

  /** The digest of "abc". */
  lemma AbcDigest()
    ensures Digest([0x61, 0x62, 0x63]) == Five(0xa9993e36, 0x4706816a, 0xba3e2571, 0x7850c26c, 0x9cd0d89d)
  {
    hide Compress, AbcBlock, Padded;
    PaddedAbc();
    WordsOf(Padded([0x61, 0x62, 0x63]));
    Compressed(Padded([0x61, 0x62, 0x63]));
    FoldOne(Compress, INIT, Padded([0x61, 0x62, 0x63]));
  }
}
