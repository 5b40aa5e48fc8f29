/**
 The worked example of section 7.3 of RFC 3174: the SHA-1 of the three bytes "abc". It holds the
 constants, the functions, the schedule and the order of the bits of this definition to the
 published digest.
 */
module Sha1Example {
  import opened Sha1Spec
  import opened Sha1Padding

  const ABC: seq<Byte> := [0x61, 0x62, 0x63]

  // ---------- the message schedule ----------

  predicate Words0(w: seq<Word>)
    requires |w| == 80
  {
    && w[0] == 0x61626380 && w[1] == 0x00000000 && w[2] == 0x00000000 && w[3] == 0x00000000
    && w[4] == 0x00000000 && w[5] == 0x00000000 && w[6] == 0x00000000 && w[7] == 0x00000000
    && w[8] == 0x00000000 && w[9] == 0x00000000 && w[10] == 0x00000000 && w[11] == 0x00000000
    && w[12] == 0x00000000 && w[13] == 0x00000000 && w[14] == 0x00000000 && w[15] == 0x00000018
  }

  predicate Words16(w: seq<Word>)
    requires |w| == 80
  {
    && w[16] == 0xC2C4C700 && w[17] == 0x00000000 && w[18] == 0x00000030 && w[19] == 0x85898E01
    && w[20] == 0x00000000 && w[21] == 0x00000060 && w[22] == 0x0B131C03 && w[23] == 0x00000030
    && w[24] == 0x85898EC1 && w[25] == 0x16263806 && w[26] == 0x00000000 && w[27] == 0x00000180
    && w[28] == 0x2C4C700C && w[29] == 0x000000F0 && w[30] == 0x93AFB507 && w[31] == 0x5898E048
  }

  predicate Words32(w: seq<Word>)
    requires |w| == 80
  {
    && w[32] == 0x8E9A9202 && w[33] == 0x00000600 && w[34] == 0xB131C0F0 && w[35] == 0x16263BC6
    && w[36] == 0x4EBED41E && w[37] == 0x626380A1 && w[38] == 0x16263806 && w[39] == 0x000018C0
    && w[40] == 0xD2E138C4 && w[41] == 0x00000F00 && w[42] == 0x3AFB5079 && w[43] == 0x898E04E5
    && w[44] == 0xE2BA3C2B && w[45] == 0x000060C0 && w[46] == 0x053A37CD && w[47] == 0x74458547
  }

  predicate Words48(w: seq<Word>)
    requires |w| == 80
  {
    && w[48] == 0xDA9415ED && w[49] == 0x26380A16 && w[50] == 0x626383A1 && w[51] == 0x4EBF54DE
    && w[52] == 0x3835B44B && w[53] == 0x0000F600 && w[54] == 0x1E84C7A3 && w[55] == 0x98E04D98
    && w[56] == 0x651D16A0 && w[57] == 0x62658CA1 && w[58] == 0x458544D6 && w[59] == 0x44584CB7
    && w[60] == 0x7BA06619 && w[61] == 0x6380AEA2 && w[62] == 0x0AE55269 && w[63] == 0x627B49A1
  }

  predicate Words64(w: seq<Word>)
    requires |w| == 80
  {
    && w[64] == 0x7CD45C9D && w[65] == 0x000F0000 && w[66] == 0xFB50753A && w[67] == 0xEC6765E8
    && w[68] == 0xBA3C2BE2 && w[69] == 0x0060C000 && w[70] == 0x3A37CD05 && w[71] == 0x458546F4
    && w[72] == 0xB8599DD6 && w[73] == 0x380A1A26 && w[74] == 0x01E02203 && w[75] == 0xE7CC3456
    && w[76] == 0xE6E60B69 && w[77] == 0x00F60A00 && w[78] == 0x5795EF4F && w[79] == 0x822E0879
  }

  lemma Mixed(m: seq<Word>, w: seq<Word>, t: nat, a: Word, b: Word, c: Word, d: Word, r: Word)
    requires |m| == 16 && w == Schedule(m, 80) && 16 <= t < 80
    requires w[t - 3] == a && w[t - 8] == b && w[t - 14] == c && w[t - 16] == d && Rotl(1, a ^ b ^ c ^ d) == r
    ensures w[t] == r
  {
    ScheduleAt(m, 80, t);
  }

  lemma Expands16(m: seq<Word>, w: seq<Word>)
    requires |m| == 16 && w == Schedule(m, 80) && Words0(w)
    ensures Words16(w)
  {
    Mixed(m, w, 16, 0x00000000, 0x00000000, 0x00000000, 0x61626380, 0xC2C4C700);
    Mixed(m, w, 17, 0x00000000, 0x00000000, 0x00000000, 0x00000000, 0x00000000);
    Mixed(m, w, 18, 0x00000018, 0x00000000, 0x00000000, 0x00000000, 0x00000030);
    Mixed(m, w, 19, 0xC2C4C700, 0x00000000, 0x00000000, 0x00000000, 0x85898E01);
    Mixed(m, w, 20, 0x00000000, 0x00000000, 0x00000000, 0x00000000, 0x00000000);
    Mixed(m, w, 21, 0x00000030, 0x00000000, 0x00000000, 0x00000000, 0x00000060);
    Mixed(m, w, 22, 0x85898E01, 0x00000000, 0x00000000, 0x00000000, 0x0B131C03);
    Mixed(m, w, 23, 0x00000000, 0x00000018, 0x00000000, 0x00000000, 0x00000030);
    Mixed(m, w, 24, 0x00000060, 0xC2C4C700, 0x00000000, 0x00000000, 0x85898EC1);
    Mixed(m, w, 25, 0x0B131C03, 0x00000000, 0x00000000, 0x00000000, 0x16263806);
    Mixed(m, w, 26, 0x00000030, 0x00000030, 0x00000000, 0x00000000, 0x00000000);
    Mixed(m, w, 27, 0x85898EC1, 0x85898E01, 0x00000000, 0x00000000, 0x00000180);
    Mixed(m, w, 28, 0x16263806, 0x00000000, 0x00000000, 0x00000000, 0x2C4C700C);
    Mixed(m, w, 29, 0x00000000, 0x00000060, 0x00000018, 0x00000000, 0x000000F0);
    Mixed(m, w, 30, 0x00000180, 0x0B131C03, 0xC2C4C700, 0x00000000, 0x93AFB507);
    Mixed(m, w, 31, 0x2C4C700C, 0x00000030, 0x00000000, 0x00000018, 0x5898E048);
  }

  lemma Expands32(m: seq<Word>, w: seq<Word>)
    requires |m| == 16 && w == Schedule(m, 80) && Words16(w)
    ensures Words32(w)
  {
    Mixed(m, w, 32, 0x000000F0, 0x85898EC1, 0x00000030, 0xC2C4C700, 0x8E9A9202);
    Mixed(m, w, 33, 0x93AFB507, 0x16263806, 0x85898E01, 0x00000000, 0x00000600);
    Mixed(m, w, 34, 0x5898E048, 0x00000000, 0x00000000, 0x00000030, 0xB131C0F0);
    Mixed(m, w, 35, 0x8E9A9202, 0x00000180, 0x00000060, 0x85898E01, 0x16263BC6);
    Mixed(m, w, 36, 0x00000600, 0x2C4C700C, 0x0B131C03, 0x00000000, 0x4EBED41E);
    Mixed(m, w, 37, 0xB131C0F0, 0x000000F0, 0x00000030, 0x00000060, 0x626380A1);
    Mixed(m, w, 38, 0x16263BC6, 0x93AFB507, 0x85898EC1, 0x0B131C03, 0x16263806);
    Mixed(m, w, 39, 0x4EBED41E, 0x5898E048, 0x16263806, 0x00000030, 0x000018C0);
    Mixed(m, w, 40, 0x626380A1, 0x8E9A9202, 0x00000000, 0x85898EC1, 0xD2E138C4);
    Mixed(m, w, 41, 0x16263806, 0x00000600, 0x00000180, 0x16263806, 0x00000F00);
    Mixed(m, w, 42, 0x000018C0, 0xB131C0F0, 0x2C4C700C, 0x00000000, 0x3AFB5079);
    Mixed(m, w, 43, 0xD2E138C4, 0x16263BC6, 0x000000F0, 0x00000180, 0x898E04E5);
    Mixed(m, w, 44, 0x00000F00, 0x4EBED41E, 0x93AFB507, 0x2C4C700C, 0xE2BA3C2B);
    Mixed(m, w, 45, 0x3AFB5079, 0x626380A1, 0x5898E048, 0x000000F0, 0x000060C0);
    Mixed(m, w, 46, 0x898E04E5, 0x16263806, 0x8E9A9202, 0x93AFB507, 0x053A37CD);
    Mixed(m, w, 47, 0xE2BA3C2B, 0x000018C0, 0x00000600, 0x5898E048, 0x74458547);
  }

  lemma Expands48(m: seq<Word>, w: seq<Word>)
    requires |m| == 16 && w == Schedule(m, 80) && Words32(w)
    ensures Words48(w)
  {
    Mixed(m, w, 48, 0x000060C0, 0xD2E138C4, 0xB131C0F0, 0x8E9A9202, 0xDA9415ED);
    Mixed(m, w, 49, 0x053A37CD, 0x00000F00, 0x16263BC6, 0x00000600, 0x26380A16);
    Mixed(m, w, 50, 0x74458547, 0x3AFB5079, 0x4EBED41E, 0xB131C0F0, 0x626383A1);
    Mixed(m, w, 51, 0xDA9415ED, 0x898E04E5, 0x626380A1, 0x16263BC6, 0x4EBF54DE);
    Mixed(m, w, 52, 0x26380A16, 0xE2BA3C2B, 0x16263806, 0x4EBED41E, 0x3835B44B);
    Mixed(m, w, 53, 0x626383A1, 0x000060C0, 0x000018C0, 0x626380A1, 0x0000F600);
    Mixed(m, w, 54, 0x4EBF54DE, 0x053A37CD, 0xD2E138C4, 0x16263806, 0x1E84C7A3);
    Mixed(m, w, 55, 0x3835B44B, 0x74458547, 0x00000F00, 0x000018C0, 0x98E04D98);
    Mixed(m, w, 56, 0x0000F600, 0xDA9415ED, 0x3AFB5079, 0xD2E138C4, 0x651D16A0);
    Mixed(m, w, 57, 0x1E84C7A3, 0x26380A16, 0x898E04E5, 0x00000F00, 0x62658CA1);
    Mixed(m, w, 58, 0x98E04D98, 0x626383A1, 0xE2BA3C2B, 0x3AFB5079, 0x458544D6);
    Mixed(m, w, 59, 0x651D16A0, 0x4EBF54DE, 0x000060C0, 0x898E04E5, 0x44584CB7);
    Mixed(m, w, 60, 0x62658CA1, 0x3835B44B, 0x053A37CD, 0xE2BA3C2B, 0x7BA06619);
    Mixed(m, w, 61, 0x458544D6, 0x0000F600, 0x74458547, 0x000060C0, 0x6380AEA2);
    Mixed(m, w, 62, 0x44584CB7, 0x1E84C7A3, 0xDA9415ED, 0x053A37CD, 0x0AE55269);
    Mixed(m, w, 63, 0x7BA06619, 0x98E04D98, 0x26380A16, 0x74458547, 0x627B49A1);
  }

  lemma Expands64(m: seq<Word>, w: seq<Word>)
    requires |m| == 16 && w == Schedule(m, 80) && Words48(w)
    ensures Words64(w)
  {
    Mixed(m, w, 64, 0x6380AEA2, 0x651D16A0, 0x626383A1, 0xDA9415ED, 0x7CD45C9D);
    Mixed(m, w, 65, 0x0AE55269, 0x62658CA1, 0x4EBF54DE, 0x26380A16, 0x000F0000);
    Mixed(m, w, 66, 0x627B49A1, 0x458544D6, 0x3835B44B, 0x626383A1, 0xFB50753A);
    Mixed(m, w, 67, 0x7CD45C9D, 0x44584CB7, 0x0000F600, 0x4EBF54DE, 0xEC6765E8);
    Mixed(m, w, 68, 0x000F0000, 0x7BA06619, 0x1E84C7A3, 0x3835B44B, 0xBA3C2BE2);
    Mixed(m, w, 69, 0xFB50753A, 0x6380AEA2, 0x98E04D98, 0x0000F600, 0x0060C000);
    Mixed(m, w, 70, 0xEC6765E8, 0x0AE55269, 0x651D16A0, 0x1E84C7A3, 0x3A37CD05);
    Mixed(m, w, 71, 0xBA3C2BE2, 0x627B49A1, 0x62658CA1, 0x98E04D98, 0x458546F4);
    Mixed(m, w, 72, 0x0060C000, 0x7CD45C9D, 0x458544D6, 0x651D16A0, 0xB8599DD6);
    Mixed(m, w, 73, 0x3A37CD05, 0x000F0000, 0x44584CB7, 0x62658CA1, 0x380A1A26);
    Mixed(m, w, 74, 0x458546F4, 0xFB50753A, 0x7BA06619, 0x458544D6, 0x01E02203);
    Mixed(m, w, 75, 0xB8599DD6, 0xEC6765E8, 0x6380AEA2, 0x44584CB7, 0xE7CC3456);
    Mixed(m, w, 76, 0x380A1A26, 0xBA3C2BE2, 0x0AE55269, 0x7BA06619, 0xE6E60B69);
    Mixed(m, w, 77, 0x01E02203, 0x0060C000, 0x627B49A1, 0x6380AEA2, 0x00F60A00);
    Mixed(m, w, 78, 0xE7CC3456, 0x3A37CD05, 0x7CD45C9D, 0x0AE55269, 0x5795EF4F);
    Mixed(m, w, 79, 0xE6E60B69, 0x458546F4, 0x000F0000, 0x627B49A1, 0x822E0879);
  }

  // ---------- the rounds ----------

  /** The working variables, from the values that the first of them has had in the last five rounds. */
  function State(e: Word, d: Word, c: Word, b: Word, a: Word): Hash {
    Hash(a, b, Rotl(30, c), Rotl(30, d), Rotl(30, e))
  }

  lemma Next(w: seq<Word>, t: nat, x: Word, e: Word, d: Word, c: Word, b: Word, a: Word, r: Word)
    requires t < 80 == |w| && w[t] == x && Rounds(H0, w, t) == State(e, d, c, b, a)
    requires Temp(a, F(t, b, Rotl(30, c), Rotl(30, d)), Rotl(30, e), x, K(t)) == r
    ensures Rounds(H0, w, t + 1) == State(d, c, b, a, r)
  {}

  lemma Rounds0(w: seq<Word>)
    requires |w| == 80 && Words0(w) && Rounds(H0, w, 0) ==
             State(0x0F4B87C3, 0x40C951D8, 0x62EB73FA, 0xEFCDAB89, 0x67452301)
    ensures Rounds(H0, w, 10) ==
            State(0x3FC7CA40, 0x993E30C1, 0x9E8C07D4, 0x4B6AE328, 0x8351F929)
  {
    Next(w, 0, 0x61626380, 0x0F4B87C3, 0x40C951D8, 0x62EB73FA, 0xEFCDAB89, 0x67452301, 0x0116FC33);
    Next(w, 1, 0x00000000, 0x40C951D8, 0x62EB73FA, 0xEFCDAB89, 0x67452301, 0x0116FC33, 0x8990536D);
    Next(w, 2, 0x00000000, 0x62EB73FA, 0xEFCDAB89, 0x67452301, 0x0116FC33, 0x8990536D, 0xA1390F08);
    Next(w, 3, 0x00000000, 0xEFCDAB89, 0x67452301, 0x0116FC33, 0x8990536D, 0xA1390F08, 0xCDD8E11B);
    Next(w, 4, 0x00000000, 0x67452301, 0x0116FC33, 0x8990536D, 0xA1390F08, 0xCDD8E11B, 0xCFD499DE);
    Next(w, 5, 0x00000000, 0x0116FC33, 0x8990536D, 0xA1390F08, 0xCDD8E11B, 0xCFD499DE, 0x3FC7CA40);
    Next(w, 6, 0x00000000, 0x8990536D, 0xA1390F08, 0xCDD8E11B, 0xCFD499DE, 0x3FC7CA40, 0x993E30C1);
    Next(w, 7, 0x00000000, 0xA1390F08, 0xCDD8E11B, 0xCFD499DE, 0x3FC7CA40, 0x993E30C1, 0x9E8C07D4);
    Next(w, 8, 0x00000000, 0xCDD8E11B, 0xCFD499DE, 0x3FC7CA40, 0x993E30C1, 0x9E8C07D4, 0x4B6AE328);
    Next(w, 9, 0x00000000, 0xCFD499DE, 0x3FC7CA40, 0x993E30C1, 0x9E8C07D4, 0x4B6AE328, 0x8351F929);
  }

  lemma Rounds10(w: seq<Word>)
    requires |w| == 80 && Words0(w) && Words16(w) && Rounds(H0, w, 10) ==
             State(0x3FC7CA40, 0x993E30C1, 0x9E8C07D4, 0x4B6AE328, 0x8351F929)
    ensures Rounds(H0, w, 20) ==
            State(0x20BDD62F, 0x4E925823, 0x82AA6728, 0xDC64901D, 0xFD9E1D7D)
  {
    Next(w, 10, 0x00000000, 0x3FC7CA40, 0x993E30C1, 0x9E8C07D4, 0x4B6AE328, 0x8351F929, 0xFBDA9E89);
    Next(w, 11, 0x00000000, 0x993E30C1, 0x9E8C07D4, 0x4B6AE328, 0x8351F929, 0xFBDA9E89, 0x63188FE4);
    Next(w, 12, 0x00000000, 0x9E8C07D4, 0x4B6AE328, 0x8351F929, 0xFBDA9E89, 0x63188FE4, 0x4607B664);
    Next(w, 13, 0x00000000, 0x4B6AE328, 0x8351F929, 0xFBDA9E89, 0x63188FE4, 0x4607B664, 0x9128F695);
    Next(w, 14, 0x00000000, 0x8351F929, 0xFBDA9E89, 0x63188FE4, 0x4607B664, 0x9128F695, 0x196BEE77);
    Next(w, 15, 0x00000018, 0xFBDA9E89, 0x63188FE4, 0x4607B664, 0x9128F695, 0x196BEE77, 0x20BDD62F);
    Next(w, 16, 0xC2C4C700, 0x63188FE4, 0x4607B664, 0x9128F695, 0x196BEE77, 0x20BDD62F, 0x4E925823);
    Next(w, 17, 0x00000000, 0x4607B664, 0x9128F695, 0x196BEE77, 0x20BDD62F, 0x4E925823, 0x82AA6728);
    Next(w, 18, 0x00000030, 0x9128F695, 0x196BEE77, 0x20BDD62F, 0x4E925823, 0x82AA6728, 0xDC64901D);
    Next(w, 19, 0x85898E01, 0x196BEE77, 0x20BDD62F, 0x4E925823, 0x82AA6728, 0xDC64901D, 0xFD9E1D7D);
  }

  lemma Rounds20(w: seq<Word>)
    requires |w| == 80 && Words16(w) && Rounds(H0, w, 20) ==
             State(0x20BDD62F, 0x4E925823, 0x82AA6728, 0xDC64901D, 0xFD9E1D7D)
    ensures Rounds(H0, w, 30) ==
            State(0x48413BA4, 0xBE35FBD5, 0x4AA84D97, 0x8370B52E, 0xC5FBAF5D)
  {
    Next(w, 20, 0x00000000, 0x20BDD62F, 0x4E925823, 0x82AA6728, 0xDC64901D, 0xFD9E1D7D, 0x1A37B0CA);
    Next(w, 21, 0x00000060, 0x4E925823, 0x82AA6728, 0xDC64901D, 0xFD9E1D7D, 0x1A37B0CA, 0x33A23BFC);
    Next(w, 22, 0x0B131C03, 0x82AA6728, 0xDC64901D, 0xFD9E1D7D, 0x1A37B0CA, 0x33A23BFC, 0x21283486);
    Next(w, 23, 0x00000030, 0xDC64901D, 0xFD9E1D7D, 0x1A37B0CA, 0x33A23BFC, 0x21283486, 0xD541F12D);
    Next(w, 24, 0x85898EC1, 0xFD9E1D7D, 0x1A37B0CA, 0x33A23BFC, 0x21283486, 0xD541F12D, 0xC7567DC6);
    Next(w, 25, 0x16263806, 0x1A37B0CA, 0x33A23BFC, 0x21283486, 0xD541F12D, 0xC7567DC6, 0x48413BA4);
    Next(w, 26, 0x00000000, 0x33A23BFC, 0x21283486, 0xD541F12D, 0xC7567DC6, 0x48413BA4, 0xBE35FBD5);
    Next(w, 27, 0x00000180, 0x21283486, 0xD541F12D, 0xC7567DC6, 0x48413BA4, 0xBE35FBD5, 0x4AA84D97);
    Next(w, 28, 0x2C4C700C, 0xD541F12D, 0xC7567DC6, 0x48413BA4, 0xBE35FBD5, 0x4AA84D97, 0x8370B52E);
    Next(w, 29, 0x000000F0, 0xC7567DC6, 0x48413BA4, 0xBE35FBD5, 0x4AA84D97, 0x8370B52E, 0xC5FBAF5D);
  }

  lemma Rounds30(w: seq<Word>)
    requires |w| == 80 && Words16(w) && Words32(w) && Rounds(H0, w, 30) ==
             State(0x48413BA4, 0xBE35FBD5, 0x4AA84D97, 0x8370B52E, 0xC5FBAF5D)
    ensures Rounds(H0, w, 40) ==
            State(0xDCBBB0CB, 0x0F511FD8, 0xDC63973F, 0x4C986405, 0x32DE1CBA)
  {
    Next(w, 30, 0x93AFB507, 0x48413BA4, 0xBE35FBD5, 0x4AA84D97, 0x8370B52E, 0xC5FBAF5D, 0x1267B407);
    Next(w, 31, 0x5898E048, 0xBE35FBD5, 0x4AA84D97, 0x8370B52E, 0xC5FBAF5D, 0x1267B407, 0x3B845D33);
    Next(w, 32, 0x8E9A9202, 0x4AA84D97, 0x8370B52E, 0xC5FBAF5D, 0x1267B407, 0x3B845D33, 0x046FAA0A);
    Next(w, 33, 0x00000600, 0x8370B52E, 0xC5FBAF5D, 0x1267B407, 0x3B845D33, 0x046FAA0A, 0x2C0EBC11);
    Next(w, 34, 0xB131C0F0, 0xC5FBAF5D, 0x1267B407, 0x3B845D33, 0x046FAA0A, 0x2C0EBC11, 0x21796AD4);
    Next(w, 35, 0x16263BC6, 0x1267B407, 0x3B845D33, 0x046FAA0A, 0x2C0EBC11, 0x21796AD4, 0xDCBBB0CB);
    Next(w, 36, 0x4EBED41E, 0x3B845D33, 0x046FAA0A, 0x2C0EBC11, 0x21796AD4, 0xDCBBB0CB, 0x0F511FD8);
    Next(w, 37, 0x626380A1, 0x046FAA0A, 0x2C0EBC11, 0x21796AD4, 0xDCBBB0CB, 0x0F511FD8, 0xDC63973F);
    Next(w, 38, 0x16263806, 0x2C0EBC11, 0x21796AD4, 0xDCBBB0CB, 0x0F511FD8, 0xDC63973F, 0x4C986405);
    Next(w, 39, 0x000018C0, 0x21796AD4, 0xDCBBB0CB, 0x0F511FD8, 0xDC63973F, 0x4C986405, 0x32DE1CBA);
  }

  lemma Rounds40(w: seq<Word>)
    requires |w| == 80 && Words32(w) && Words48(w) && Rounds(H0, w, 40) ==
             State(0xDCBBB0CB, 0x0F511FD8, 0xDC63973F, 0x4C986405, 0x32DE1CBA)
    ensures Rounds(H0, w, 50) ==
            State(0x1C51E1F2, 0xA01B846C, 0xBEAD02CA, 0xBAF39337, 0x120731C5)
  {
    Next(w, 40, 0xD2E138C4, 0xDCBBB0CB, 0x0F511FD8, 0xDC63973F, 0x4C986405, 0x32DE1CBA, 0xFC87DEDF);
    Next(w, 41, 0x00000F00, 0x0F511FD8, 0xDC63973F, 0x4C986405, 0x32DE1CBA, 0xFC87DEDF, 0x970A0D5C);
    Next(w, 42, 0x3AFB5079, 0xDC63973F, 0x4C986405, 0x32DE1CBA, 0xFC87DEDF, 0x970A0D5C, 0x7F193DC5);
    Next(w, 43, 0x898E04E5, 0x4C986405, 0x32DE1CBA, 0xFC87DEDF, 0x970A0D5C, 0x7F193DC5, 0xEE1B1AAF);
    Next(w, 44, 0xE2BA3C2B, 0x32DE1CBA, 0xFC87DEDF, 0x970A0D5C, 0x7F193DC5, 0xEE1B1AAF, 0x40F28E09);
    Next(w, 45, 0x000060C0, 0xFC87DEDF, 0x970A0D5C, 0x7F193DC5, 0xEE1B1AAF, 0x40F28E09, 0x1C51E1F2);
    Next(w, 46, 0x053A37CD, 0x970A0D5C, 0x7F193DC5, 0xEE1B1AAF, 0x40F28E09, 0x1C51E1F2, 0xA01B846C);
    Next(w, 47, 0x74458547, 0x7F193DC5, 0xEE1B1AAF, 0x40F28E09, 0x1C51E1F2, 0xA01B846C, 0xBEAD02CA);
    Next(w, 48, 0xDA9415ED, 0xEE1B1AAF, 0x40F28E09, 0x1C51E1F2, 0xA01B846C, 0xBEAD02CA, 0xBAF39337);
    Next(w, 49, 0x26380A16, 0x40F28E09, 0x1C51E1F2, 0xA01B846C, 0xBEAD02CA, 0xBAF39337, 0x120731C5);
  }

  lemma Rounds50(w: seq<Word>)
    requires |w| == 80 && Words48(w) && Rounds(H0, w, 50) ==
             State(0x1C51E1F2, 0xA01B846C, 0xBEAD02CA, 0xBAF39337, 0x120731C5)
    ensures Rounds(H0, w, 60) ==
            State(0x5E6456AF, 0xC846093F, 0xD262FF50, 0x09D785FD, 0x3F52DE5A)
  {
    Next(w, 50, 0x626383A1, 0x1C51E1F2, 0xA01B846C, 0xBEAD02CA, 0xBAF39337, 0x120731C5, 0x641DB2CE);
    Next(w, 51, 0x4EBF54DE, 0xA01B846C, 0xBEAD02CA, 0xBAF39337, 0x120731C5, 0x641DB2CE, 0x3847AD66);
    Next(w, 52, 0x3835B44B, 0xBEAD02CA, 0xBAF39337, 0x120731C5, 0x641DB2CE, 0x3847AD66, 0xE490436D);
    Next(w, 53, 0x0000F600, 0xBAF39337, 0x120731C5, 0x641DB2CE, 0x3847AD66, 0xE490436D, 0x27E9F1D8);
    Next(w, 54, 0x1E84C7A3, 0x120731C5, 0x641DB2CE, 0x3847AD66, 0xE490436D, 0x27E9F1D8, 0x7B71F76D);
    Next(w, 55, 0x98E04D98, 0x641DB2CE, 0x3847AD66, 0xE490436D, 0x27E9F1D8, 0x7B71F76D, 0x5E6456AF);
    Next(w, 56, 0x651D16A0, 0x3847AD66, 0xE490436D, 0x27E9F1D8, 0x7B71F76D, 0x5E6456AF, 0xC846093F);
    Next(w, 57, 0x62658CA1, 0xE490436D, 0x27E9F1D8, 0x7B71F76D, 0x5E6456AF, 0xC846093F, 0xD262FF50);
    Next(w, 58, 0x458544D6, 0x27E9F1D8, 0x7B71F76D, 0x5E6456AF, 0xC846093F, 0xD262FF50, 0x09D785FD);
    Next(w, 59, 0x44584CB7, 0x7B71F76D, 0x5E6456AF, 0xC846093F, 0xD262FF50, 0x09D785FD, 0x3F52DE5A);
  }

  lemma Rounds60(w: seq<Word>)
    requires |w| == 80 && Words48(w) && Words64(w) && Rounds(H0, w, 60) ==
             State(0x5E6456AF, 0xC846093F, 0xD262FF50, 0x09D785FD, 0x3F52DE5A)
    ensures Rounds(H0, w, 70) ==
            State(0x101655F9, 0x0C3DF2B4, 0x78DD4D2B, 0x497093C0, 0x3F2588C2)
  {
    Next(w, 60, 0x7BA06619, 0x5E6456AF, 0xC846093F, 0xD262FF50, 0x09D785FD, 0x3F52DE5A, 0xD756C147);
    Next(w, 61, 0x6380AEA2, 0xC846093F, 0xD262FF50, 0x09D785FD, 0x3F52DE5A, 0xD756C147, 0x548C9CB2);
    Next(w, 62, 0x0AE55269, 0xD262FF50, 0x09D785FD, 0x3F52DE5A, 0xD756C147, 0x548C9CB2, 0xB66C020B);
    Next(w, 63, 0x627B49A1, 0x09D785FD, 0x3F52DE5A, 0xD756C147, 0x548C9CB2, 0xB66C020B, 0x6B61C9E1);
    Next(w, 64, 0x7CD45C9D, 0x3F52DE5A, 0xD756C147, 0x548C9CB2, 0xB66C020B, 0x6B61C9E1, 0x19DFA7AC);
    Next(w, 65, 0x000F0000, 0xD756C147, 0x548C9CB2, 0xB66C020B, 0x6B61C9E1, 0x19DFA7AC, 0x101655F9);
    Next(w, 66, 0xFB50753A, 0x548C9CB2, 0xB66C020B, 0x6B61C9E1, 0x19DFA7AC, 0x101655F9, 0x0C3DF2B4);
    Next(w, 67, 0xEC6765E8, 0xB66C020B, 0x6B61C9E1, 0x19DFA7AC, 0x101655F9, 0x0C3DF2B4, 0x78DD4D2B);
    Next(w, 68, 0xBA3C2BE2, 0x6B61C9E1, 0x19DFA7AC, 0x101655F9, 0x0C3DF2B4, 0x78DD4D2B, 0x497093C0);
    Next(w, 69, 0x0060C000, 0x19DFA7AC, 0x101655F9, 0x0C3DF2B4, 0x78DD4D2B, 0x497093C0, 0x3F2588C2);
  }

  lemma Rounds70(w: seq<Word>)
    requires |w| == 80 && Words64(w) && Rounds(H0, w, 70) ==
             State(0x101655F9, 0x0C3DF2B4, 0x78DD4D2B, 0x497093C0, 0x3F2588C2)
    ensures Rounds(H0, w, 80) ==
            State(0x63F7DAB7, 0xA079B7D9, 0x860D21CC, 0x5738D5E1, 0x42541B35)
  {
    Next(w, 70, 0x3A37CD05, 0x101655F9, 0x0C3DF2B4, 0x78DD4D2B, 0x497093C0, 0x3F2588C2, 0xC199F8C7);
    Next(w, 71, 0x458546F4, 0x0C3DF2B4, 0x78DD4D2B, 0x497093C0, 0x3F2588C2, 0xC199F8C7, 0x39859DE7);
    Next(w, 72, 0xB8599DD6, 0x78DD4D2B, 0x497093C0, 0x3F2588C2, 0xC199F8C7, 0x39859DE7, 0xEDB42DE4);
    Next(w, 73, 0x380A1A26, 0x497093C0, 0x3F2588C2, 0xC199F8C7, 0x39859DE7, 0xEDB42DE4, 0x11793F6F);
    Next(w, 74, 0x01E02203, 0x3F2588C2, 0xC199F8C7, 0x39859DE7, 0xEDB42DE4, 0x11793F6F, 0x5EE76897);
    Next(w, 75, 0xE7CC3456, 0xC199F8C7, 0x39859DE7, 0xEDB42DE4, 0x11793F6F, 0x5EE76897, 0x63F7DAB7);
    Next(w, 76, 0xE6E60B69, 0x39859DE7, 0xEDB42DE4, 0x11793F6F, 0x5EE76897, 0x63F7DAB7, 0xA079B7D9);
    Next(w, 77, 0x00F60A00, 0xEDB42DE4, 0x11793F6F, 0x5EE76897, 0x63F7DAB7, 0xA079B7D9, 0x860D21CC);
    Next(w, 78, 0x5795EF4F, 0x11793F6F, 0x5EE76897, 0x63F7DAB7, 0xA079B7D9, 0x860D21CC, 0x5738D5E1);
    Next(w, 79, 0x822E0879, 0x5EE76897, 0x63F7DAB7, 0xA079B7D9, 0x860D21CC, 0x5738D5E1, 0x42541B35);
  }

  // ---------- the digest ----------

  const ABC_BLOCK: seq<Byte> := ABC + [0x80] + ZeroBytes(52) + Octets(24, 8)

  lemma {:induction false} ZeroOctets(k: nat)
    ensures Octets(0, k) == ZeroBytes(k)
  {
    if k > 0 { ZeroOctets(k - 1); }
  }

  lemma LengthOctets()
    ensures Octets(24, 8) == ZeroBytes(7) + [24]
  {
    assert 24 / 256 == 0 && 24 % 256 == 24;
    ZeroOctets(7);
  }

  lemma BlockBytes()
    ensures |ABC_BLOCK| == 64
    ensures ABC_BLOCK[0] == 0x61 && ABC_BLOCK[1] == 0x62 && ABC_BLOCK[2] == 0x63 && ABC_BLOCK[3] == 0x80
    ensures forall i :: 4 <= i < 63 ==> ABC_BLOCK[i] == 0
    ensures ABC_BLOCK[63] == 24
  {
    LengthOctets();
  }

  lemma BlockWords(w: seq<Word>)
    requires |ABC_BLOCK| == 64 && |w| == 80 && w[..16] == Words(ABC_BLOCK)
    ensures Words0(w)
  {
    BlockBytes();
    assert WordOf(0x61, 0x62, 0x63, 0x80) == 0x61626380 && WordOf(0, 0, 0, 0) == 0 && WordOf(0, 0, 0, 24) == 0x18;
    forall t | 0 <= t < 16
      ensures w[t] == if t == 0 then 0x61626380 else if t == 15 then 0x18 else 0
    {
      assert w[t] == w[..16][t] == Words(ABC_BLOCK)[t];
    }
  }

  lemma ExampleSchedule() returns (w: seq<Word>)
    ensures |ABC_BLOCK| == 64 && w == Schedule(Words(ABC_BLOCK), 80)
    ensures |w| == 80 && Words0(w) && Words16(w) && Words32(w) && Words48(w) && Words64(w)
  {
    BlockBytes();
    var m := Words(ABC_BLOCK);
    w := Schedule(m, 80);
    SchedulePrefix(m, 16, 80);
    BlockWords(w);
    Expands16(m, w);
    Expands32(m, w);
    Expands48(m, w);
    Expands64(m, w);
  }

  lemma StartState()
    ensures H0 == State(0x0F4B87C3, 0x40C951D8, 0x62EB73FA, 0xEFCDAB89, 0x67452301)
  {}

  lemma ExampleRounds(w: seq<Word>)
    requires |w| == 80 && Words0(w) && Words16(w) && Words32(w) && Words48(w) && Words64(w)
    ensures Rounds(H0, w, 80) == State(0x63F7DAB7, 0xA079B7D9, 0x860D21CC, 0x5738D5E1, 0x42541B35)
  {
    StartState();
    Rounds0(w);
    Rounds10(w);
    Rounds20(w);
    Rounds30(w);
    Rounds40(w);
    Rounds50(w);
    Rounds60(w);
    Rounds70(w);
  }

  lemma ExampleSum()
    ensures Sum(H0, State(0x63F7DAB7, 0xA079B7D9, 0x860D21CC, 0x5738D5E1, 0x42541B35)) ==
            Hash(0xA9993E36, 0x4706816A, 0xBA3E2571, 0x7850C26C, 0x9CD0D89D)
  {}

  lemma MarkByte()
    ensures ByteBits(0x80) == [] + [true] + Zeros(7)
  {
    EightBits(0x80);
  }

  /** The SHA-1 of "abc" is a9993e36 4706816a ba3e2571 7850c26c 9cd0d89d. */
  lemma AbcHash()
    ensures Sha1(Bits(ABC)) == Hash(0xA9993E36, 0x4706816A, 0xBA3E2571, 0x7850C26C, 0x9CD0D89D)
  {
    var w := ExampleSchedule();
    ExampleRounds(w);
    ExampleSum();
    assert Compress(H0, Words(ABC_BLOCK)) == Hash(0xA9993E36, 0x4706816A, 0xBA3E2571, 0x7850C26C, 0x9CD0D89D);
    MarkByte();
    assert ABC_BLOCK == Padded(ABC, 0x80, 24);
    PaddedHash(ABC, 0x80, [], 24);
    assert Bits(ABC) + [] == Bits(ABC);
    LastBlock([], ABC_BLOCK);
    assert [] + ABC_BLOCK == ABC_BLOCK;
  }

  /** Its digest in bytes. */
  lemma AbcDigest()
    ensures Digest(Sha1(Bits(ABC))) ==
            [0xA9, 0x99, 0x3E, 0x36, 0x47, 0x06, 0x81, 0x6A, 0xBA, 0x3E,
             0x25, 0x71, 0x78, 0x50, 0xC2, 0x6C, 0x9C, 0xD0, 0xD8, 0x9D]
  {
    AbcHash();
  }
}
