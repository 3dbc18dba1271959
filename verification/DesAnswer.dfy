/** One key and one block, enciphered round by round. */
module DesAnswer {
  import opened Des
  import opened DesBits
  import opened DesCipher
  import opened DesConforms
  import opened DesKeys
  import opened DesModes
  import opened DesRound
  import opened DesTables
  import FIPS = DesStandard

  const KEY_BYTES: Block := [0x13, 0x34, 0x57, 0x79, 0x9B, 0xBC, 0xDF, 0xF1]
  const BLOCK_BYTES: Block := [0x01, 0x23, 0x45, 0x67, 0x89, 0xAB, 0xCD, 0xEF]

  const KEY: Pair := Pair(0x13345779, 0x9BBCDFF1)
  const BLOCK: Pair := Pair(0x01234567, 0x89ABCDEF)

  /** The rotated halves of the key and the halves of the block after n rounds. */
  predicate Reached(n: nat, h: Pair, p: Pair) {
    Halves(KEY, n) == h && Rounds(MIX(), Subkeys(KEY, n), Ip(BLOCK)) == p
  }

  lemma NextReached(n: nat, h: Pair, p: Pair)
    requires Reached(n, h, p)
    ensures var t := Turned(n, h); Reached(n + 1, t, RoundOf(Subkey0(t), Subkey1(t), p))
  {
    hide Ip, MIX, Rounds, Subkey0, Subkey1, Turned, RoundOf, KEY, BLOCK, Pc1;
    var (k0, k1) := (Subkey0(Turned(n, h)), Subkey1(Turned(n, h)));
    RoundsConcat(MIX(), Subkeys(KEY, n), [k0, k1], Ip(BLOCK));
    OneRound(k0, k1, p);
  }

  lemma Reached0()
    ensures Reached(0, Pair(0x0F0CCAAF, 0x0556678F), Pair(0x980199FF, 0xE155E155))
  {
    hide MIX, LeftHalf, RightHalf;
    LeftGathers(Exchanged(KEY).x); RightGathers(Exchanged(KEY).y);
  }

  /** The halves h turn into t in round n, and give two subkey words. */
  predicate KeysAre(n: nat, h: Pair, t: Pair, k0: bv32, k1: bv32) {
    Turned(n, h) == t && Subkey0(t) == k0 && Subkey1(t) == k1
  }

  lemma Keys1Known()
    ensures && KeysAre(0, Pair(0x0F0CCAAF, 0x0556678F), Pair(0x0E19955F, 0x0AACCF1E), 0x302F0732, 0x060B3F01)
            && KeysAre(1, Pair(0x0E19955F, 0x0AACCF1E), Pair(0x0C332ABF, 0x05599E3D), 0x1A193C25, 0x1E3B3627)
            && KeysAre(2, Pair(0x0C332ABF, 0x05599E3D), Pair(0x00CCAAFF, 0x056678F5), 0x1F0A2C19, 0x1532103E)
            && KeysAre(3, Pair(0x00CCAAFF, 0x056678F5), Pair(0x0332ABFC, 0x0599E3D5), 0x2A16331D, 0x1C373614) {}

  lemma Keys5Known()
    ensures && KeysAre(4, Pair(0x0332ABFC, 0x0599E3D5), Pair(0x0CCAAFF0, 0x06678F55), 0x0E073528, 0x1F303A0E)
            && KeysAre(5, Pair(0x0CCAAFF0, 0x06678F55), Pair(0x032ABFC3, 0x099E3D55), 0x3A3E072F, 0x1814142C)
            && KeysAre(6, Pair(0x032ABFC3, 0x099E3D55), Pair(0x0CAAFF0C, 0x0678F556), 0x0837213C, 0x3B123D22)
            && KeysAre(7, Pair(0x0CAAFF0C, 0x0678F556), Pair(0x02ABFC33, 0x09E3D559), 0x383A133B, 0x3D28302F) {}

  lemma Keys9Known()
    ensures && KeysAre(8, Pair(0x02ABFC33, 0x09E3D559), Pair(0x0557F866, 0x03C7AAB3), 0x0D2B1E01, 0x382F3B1E)
            && KeysAre(9, Pair(0x0557F866, 0x03C7AAB3), Pair(0x055FE199, 0x0F1EAACC), 0x1F07240F, 0x2C0D2E19)
            && KeysAre(10, Pair(0x055FE199, 0x0F1EAACC), Pair(0x057F8665, 0x0C7AAB33), 0x15132D06, 0x083F370E)
            && KeysAre(11, Pair(0x057F8665, 0x0C7AAB33), Pair(0x05FE1995, 0x01EAACCF), 0x17350629, 0x1D07251F) {}

  lemma Keys13Known()
    ensures && KeysAre(12, Pair(0x05FE1995, 0x01EAACCF), Pair(0x07F86655, 0x07AAB33C), 0x3C112B01, 0x25173E29)
            && KeysAre(13, Pair(0x07F86655, 0x07AAB33C), Pair(0x0FE19955, 0x0EAACCF1), 0x34372E3A, 0x170E3C1C)
            && KeysAre(14, Pair(0x0FE19955, 0x0EAACCF1), Pair(0x0F866557, 0x0AAB33C7), 0x390D130A, 0x2F060F3C)
            && KeysAre(15, Pair(0x0F866557, 0x0AAB33C7), Pair(0x0F0CCAAF, 0x0556678F), 0x330B2135, 0x3236031F) {}

  lemma Even1Known() ensures EvenBoxes(DES_BOXES, 0xD17AE667) == 0x00945070 { hide SB1, SB3, SB5, SB7; }

  lemma Odd1Known() ensures OddBoxes(DES_BOXES, 0x581E6114) == 0x46010306 { hide SB2, SB4, SB6, SB8; }

  lemma Reached1()
    ensures Reached(1, Pair(0x0E19955F, 0x0AACCF1E), Pair(0xE155E155, 0xDE94CA89))
  {
    hide MIX, EvenBoxes, OddBoxes, DES_BOXES, Turned, Subkey0, Subkey1, Reached;
    Reached0();
    NextReached(0, Pair(0x0F0CCAAF, 0x0556678F), Pair(0x980199FF, 0xE155E155));
    Keys1Known(); Even1Known(); Odd1Known();
  }

  lemma Even2Known() ensures EvenBoxes(DES_BOXES, 0xC48DF6AC) == 0x30540040 { hide SB1, SB3, SB5, SB7; }

  lemma Odd2Known() ensures OddBoxes(DES_BOXES, 0x83D27A8F) == 0x49030F06 { hide SB2, SB4, SB6, SB8; }

  lemma Reached2()
    ensures Reached(2, Pair(0x0C332ABF, 0x05599E3D), Pair(0xDE94CA89, 0x9802EE13))
  {
    hide MIX, EvenBoxes, OddBoxes, DES_BOXES, Turned, Subkey0, Subkey1, Reached;
    Reached1();
    NextReached(1, Pair(0x0E19955F, 0x0AACCF1E), Pair(0xE155E155, 0xDE94CA89));
    Keys1Known(); Even2Known(); Odd2Known();
  }

  lemma Even3Known() ensures EvenBoxes(DES_BOXES, 0x8708C20A) == 0x9004D060 { hide SB1, SB3, SB5, SB7; }

  lemma Odd3Known() ensures OddBoxes(DES_BOXES, 0x2CB23EDF) == 0x0A280D00 { hide SB2, SB4, SB6, SB8; }

  lemma Reached3()
    ensures Reached(3, Pair(0x00CCAAFF, 0x056678F5), Pair(0x9802EE13, 0x44B817E9))
  {
    hide MIX, EvenBoxes, OddBoxes, DES_BOXES, Turned, Subkey0, Subkey1, Reached;
    Reached2();
    NextReached(2, Pair(0x0C332ABF, 0x05599E3D), Pair(0xDE94CA89, 0x9802EE13));
    Keys1Known(); Even3Known(); Odd3Known();
  }

  lemma Even4Known() ensures EvenBoxes(DES_BOXES, 0x6EAE24F4) == 0x3044E091 { hide SB1, SB3, SB5, SB7; }

  lemma Odd4Known() ensures OddBoxes(DES_BOXES, 0x887CB76A) == 0x46020E08 { hide SB2, SB4, SB6, SB8; }

  lemma Reached4()
    ensures Reached(4, Pair(0x0332ABFC, 0x0599E3D5), Pair(0x44B817E9, 0xEE44008A))
  {
    hide MIX, EvenBoxes, OddBoxes, DES_BOXES, Turned, Subkey0, Subkey1, Reached;
    Reached3();
    NextReached(3, Pair(0x00CCAAFF, 0x056678F5), Pair(0x9802EE13, 0x44B817E9));
    Keys1Known(); Even4Known(); Odd4Known();
  }

  lemma Even5Known() ensures EvenBoxes(DES_BOXES, 0xE04335A2) == 0x10045080 { hide SB1, SB3, SB5, SB7; }

  lemma Odd5Known() ensures OddBoxes(DES_BOXES, 0xB1D47A06) == 0x40230B06 { hide SB2, SB4, SB6, SB8; }

  lemma Reached5()
    ensures Reached(5, Pair(0x0CCAAFF0, 0x06678F55), Pair(0xEE44008A, 0x149F4C6F))
  {
    hide MIX, EvenBoxes, OddBoxes, DES_BOXES, Turned, Subkey0, Subkey1, Reached;
    Reached4();
    NextReached(4, Pair(0x0332ABFC, 0x0599E3D5), Pair(0x44B817E9, 0xEE44008A));
    Keys5Known(); Even5Known(); Odd5Known();
  }

  lemma Even6Known() ensures EvenBoxes(DES_BOXES, 0x2EA14B40) == 0x30809051 { hide SB1, SB3, SB5, SB7; }

  lemma Odd6Known() ensures OddBoxes(DES_BOXES, 0xE95DE0EA) == 0x0C0B0A08 { hide SB2, SB4, SB6, SB8; }

  lemma Reached6()
    ensures Reached(6, Pair(0x032ABFC3, 0x099E3D55), Pair(0x149F4C6F, 0xD2CF9AD3))
  {
    hide MIX, EvenBoxes, OddBoxes, DES_BOXES, Turned, Subkey0, Subkey1, Reached;
    Reached5();
    NextReached(5, Pair(0x0CCAAFF0, 0x06678F55), Pair(0xEE44008A, 0x149F4C6F));
    Keys5Known(); Even6Known(); Odd6Known();
  }

  lemma Even7Known() ensures EvenBoxes(DES_BOXES, 0xDAF8BBEF) == 0x10003041 { hide SB1, SB3, SB5, SB7; }

  lemma Odd7Known() ensures OddBoxes(DES_BOXES, 0x063EC48F) == 0x080A080E { hide SB2, SB4, SB6, SB8; }

  lemma Reached7()
    ensures Reached(7, Pair(0x0CAAFF0C, 0x0678F556), Pair(0xD2CF9AD3, 0x0C957420))
  {
    hide MIX, EvenBoxes, OddBoxes, DES_BOXES, Turned, Subkey0, Subkey1, Reached;
    Reached6();
    NextReached(6, Pair(0x032ABFC3, 0x099E3D55), Pair(0x149F4C6F, 0xD2CF9AD3));
    Keys5Known(); Even7Known(); Odd7Known();
  }

  lemma Even8Known() ensures EvenBoxes(DES_BOXES, 0x34AF671B) == 0x301400F0 { hide SB1, SB3, SB5, SB7; }

  lemma Odd8Known() ensures OddBoxes(DES_BOXES, 0x3DE1676D) == 0x48090D02 { hide SB2, SB4, SB6, SB8; }

  lemma Reached8()
    ensures Reached(8, Pair(0x02ABFC33, 0x09E3D559), Pair(0x0C957420, 0xAAD29721))
  {
    hide MIX, EvenBoxes, OddBoxes, DES_BOXES, Turned, Subkey0, Subkey1, Reached;
    Reached7();
    NextReached(7, Pair(0x0CAAFF0C, 0x0678F556), Pair(0xD2CF9AD3, 0x0C957420));
    Keys5Known(); Even8Known(); Odd8Known();
  }

  lemma Even9Known() ensures EvenBoxes(DES_BOXES, 0xA7F98920) == 0x0044F0D0 { hide SB1, SB3, SB5, SB7; }

  lemma Odd9Known() ensures OddBoxes(DES_BOXES, 0x2282126C) == 0x44280804 { hide SB2, SB4, SB6, SB8; }

  lemma Reached9()
    ensures Reached(9, Pair(0x0557F866, 0x03C7AAB3), Pair(0xAAD29721, 0x48F98CF4))
  {
    hide MIX, EvenBoxes, OddBoxes, DES_BOXES, Turned, Subkey0, Subkey1, Reached;
    Reached8();
    NextReached(8, Pair(0x02ABFC33, 0x09E3D559), Pair(0x0C957420, 0xAAD29721));
    Keys9Known(); Even9Known(); Odd9Known();
  }

  lemma Even10Known() ensures EvenBoxes(DES_BOXES, 0x57FEA8FB) == 0x80503040 { hide SB1, SB3, SB5, SB7; }

  lemma Odd10Known() ensures OddBoxes(DES_BOXES, 0x6882B6D6) == 0x45290804 { hide SB2, SB4, SB6, SB8; }

  lemma Reached10()
    ensures Reached(10, Pair(0x055FE199, 0x0F1EAACC), Pair(0x48F98CF4, 0x6FABAF65))
  {
    hide MIX, EvenBoxes, OddBoxes, DES_BOXES, Turned, Subkey0, Subkey1, Reached;
    Reached9();
    NextReached(9, Pair(0x0557F866, 0x03C7AAB3), Pair(0xAAD29721, 0x48F98CF4));
    Keys9Known(); Even10Known(); Odd10Known();
  }

  lemma Even11Known() ensures EvenBoxes(DES_BOXES, 0x7AB88263) == 0x8000F001 { hide SB1, SB3, SB5, SB7; }

  lemma Odd11Known() ensures OddBoxes(DES_BOXES, 0x5EC58DF8) == 0x42090404 { hide SB2, SB4, SB6, SB8; }

  lemma Reached11()
    ensures Reached(11, Pair(0x057F8665, 0x0C7AAB33), Pair(0x6FABAF65, 0x8AF078F1))
  {
    hide MIX, EvenBoxes, OddBoxes, DES_BOXES, Turned, Subkey0, Subkey1, Reached;
    Reached10();
    NextReached(10, Pair(0x055FE199, 0x0F1EAACC), Pair(0x48F98CF4, 0x6FABAF65));
    Keys9Known(); Even11Known(); Odd11Known();
  }

  lemma Even12Known() ensures EvenBoxes(DES_BOXES, 0x9DC57ED8) == 0x80D090D1 { hide SB1, SB3, SB5, SB7; }

  lemma Odd12Known() ensures OddBoxes(DES_BOXES, 0x05A82290) == 0x04010F04 { hide SB2, SB4, SB6, SB8; }

  lemma Reached12()
    ensures Reached(12, Pair(0x05FE1995, 0x01EAACCF), Pair(0x8AF078F1, 0xEB7A30B0))
  {
    hide MIX, EvenBoxes, OddBoxes, DES_BOXES, Turned, Subkey0, Subkey1, Reached;
    Reached11();
    NextReached(11, Pair(0x057F8665, 0x0C7AAB33), Pair(0x6FABAF65, 0x8AF078F1));
    Keys9Known(); Even12Known(); Odd12Known();
  }

  lemma Even13Known() ensures EvenBoxes(DES_BOXES, 0xD76B1BB1) == 0xB0545041 { hide SB1, SB3, SB5, SB7; }

  lemma Odd13Known() ensures OddBoxes(DES_BOXES, 0x2BA09D22) == 0x0B220204 { hide SB2, SB4, SB6, SB8; }

  lemma Reached13()
    ensures Reached(13, Pair(0x07F86655, 0x07AAB33C), Pair(0xEB7A30B0, 0x31862AB4))
  {
    hide MIX, EvenBoxes, OddBoxes, DES_BOXES, Turned, Subkey0, Subkey1, Reached;
    Reached12();
    NextReached(12, Pair(0x05FE1995, 0x01EAACCF), Pair(0x8AF078F1, 0xEB7A30B0));
    Keys13Known(); Even13Known(); Odd13Known();
  }

  lemma Even14Known() ensures EvenBoxes(DES_BOXES, 0x05B1048E) == 0x204010A1 { hide SB1, SB3, SB5, SB7; }

  lemma Odd14Known() ensures OddBoxes(DES_BOXES, 0x54165EB7) == 0x4E230C0A { hide SB2, SB4, SB6, SB8; }

  lemma Reached14()
    ensures Reached(14, Pair(0x0FE19955, 0x0EAACCF1), Pair(0x31862AB4, 0x85192C1B))
  {
    hide MIX, EvenBoxes, OddBoxes, DES_BOXES, Turned, Subkey0, Subkey1, Reached;
    Reached13();
    NextReached(13, Pair(0x07F86655, 0x07AAB33C), Pair(0xEB7A30B0, 0x31862AB4));
    Keys13Known(); Even14Known(); Odd14Known();
  }

  lemma Even15Known() ensures EvenBoxes(DES_BOXES, 0xBC143F11) == 0xB00040D0 { hide SB1, SB3, SB5, SB7; }

  lemma Odd15Known() ensures OddBoxes(DES_BOXES, 0x97579DFD) == 0x07020E0C { hide SB2, SB4, SB6, SB8; }

  lemma Reached15()
    ensures Reached(15, Pair(0x0F866557, 0x0AAB33C7), Pair(0x85192C1B, 0x86846468))
  {
    hide MIX, EvenBoxes, OddBoxes, DES_BOXES, Turned, Subkey0, Subkey1, Reached;
    Reached14();
    NextReached(14, Pair(0x0FE19955, 0x0EAACCF1), Pair(0x31862AB4, 0x85192C1B));
    Keys13Known(); Even15Known(); Odd15Known();
  }

  lemma Even16Known() ensures EvenBoxes(DES_BOXES, 0xB58F455D) == 0x90809031 { hide SB1, SB3, SB5, SB7; }

  lemma Odd16Known() ensures OddBoxes(DES_BOXES, 0xBA5E4559) == 0x01000F00 { hide SB2, SB4, SB6, SB8; }

  lemma Reached16()
    ensures Reached(16, Pair(0x0F0CCAAF, 0x0556678F), Pair(0x86846468, 0x1499B32A))
  {
    hide MIX, EvenBoxes, OddBoxes, DES_BOXES, Turned, Subkey0, Subkey1, Reached;
    Reached15();
    NextReached(15, Pair(0x0F866557, 0x0AAB33C7), Pair(0x85192C1B, 0x86846468));
    Keys13Known(); Even16Known(); Odd16Known();
  }

  /** The key 133457799BBCDFF1 enciphers the block 0123456789ABCDEF to 85E813540F0AB405. */
  lemma KnownWords()
    ensures PairOf(KEY_BYTES) == KEY && PairOf(BLOCK_BYTES) == BLOCK {}

  lemma KnownBytes()
    ensures BytesOf(Fp(Swap(Pair(0x86846468, 0x1499B32A)))) == [0x85, 0xE8, 0x13, 0x54, 0x0F, 0x0A, 0xB4, 0x05] {}

  lemma KnownAnswer()
    ensures DesWith(KeysOf(KEY_BYTES))(BLOCK_BYTES) == [0x85, 0xE8, 0x13, 0x54, 0x0F, 0x0A, 0xB4, 0x05]
  {
    hide MIX, Rounds, Subkeys, Ip, Fp, PairOf, BytesOf, KEY, BLOCK, KEY_BYTES, BLOCK_BYTES;
    KnownWords(); KnownBytes(); Reached16();
  }
}
