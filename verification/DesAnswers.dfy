/** Known answers of DES: fourteen of the nineteen that NBS Special Publication 500-20 gives for
    its S-boxes, a worked example with the key 133457799BBCDFF1, and the answer to a VNC
    challenge. Together their rounds use every cell of every box. */
module DesAnswers {
  import opened Words
  import opened DesTables
  import opened Des
  import opened DesWords
  import opened VncAuth

  /** How far the key turns before round i. */
  function Turns(i: nat): nat { if i == 0 || i == 1 || i == 8 || i == 15 then 1 else 2 }

  /** Round i: the key turned, and the next half of the block. */
  predicate Goes(i: nat, cd: Word, cd': Word, x: Word, l: Word, r: Word, r': Word) {
    cd' == Turn(cd, Turns(i)) && x == Ew(r) ^ Pc2(cd') && r' == l ^ Pw(Boxes(x))
  }

  /** Four rounds from the i-th on, by the halves of the block they produce. */
  predicate Four(i: nat, cd0: Word, cd1: Word, cd2: Word, cd3: Word, cd4: Word,
                x1: Word, x2: Word, x3: Word, x4: Word, h0: Word, h1: Word, h2: Word, h3: Word, h4: Word, h5: Word) {
    && Goes(i, cd0, cd1, x1, h0, h1, h2) && Goes(i + 1, cd1, cd2, x2, h1, h2, h3)
    && Goes(i + 2, cd2, cd3, x3, h2, h3, h4) && Goes(i + 3, cd3, cd4, x4, h3, h4, h5)
  }

  lemma TurnsAre(i: nat)
    requires i < 16
    ensures |ROTATIONS| == 16 && ROTATIONS[i] == Turns(i)
  {
  }

  lemma GoesOn(i: nat, cd: Word, cd': Word, x: Word, l: Word, r: Word, r': Word)
    requires i < 16 && Goes(i, cd, cd', x, l, r, r')
    ensures Rest(State(cd, l, r), i) == Rest(State(cd', r, r'), i + 1)
  {
    hide Rest, Turn, Ew, Pc2, Pw, Boxes;
    TurnsAre(i);
    StepOf(State(cd, l, r), i);
  }

  /** The halves joined and permuted for the last time. */
  lemma Ends(block: Word, key: Word, cd: Word, l: Word, r: Word, y: Word, c: Word)
    requires y == Paired(l, r) && c == Fp(y) && Rest(First(block, key), 0) == Rest(State(cd, l, r), 16)
    ensures Encrypt(Of(block, 64), Of(key, 64)) == Of(c, 64)
  {
    hide Rest, First, Encrypt, Of, Fp, Paired;
    EncryptOf(block, key, State(cd, l, r));
  }

  lemma FourOn(i: nat, cd0: Word, cd1: Word, cd2: Word, cd3: Word, cd4: Word,
                x1: Word, x2: Word, x3: Word, x4: Word, h0: Word, h1: Word, h2: Word, h3: Word, h4: Word, h5: Word)
    requires i <= 12 && Four(i, cd0, cd1, cd2, cd3, cd4, x1, x2, x3, x4, h0, h1, h2, h3, h4, h5)
    ensures Rest(State(cd0, h0, h1), i) == Rest(State(cd4, h4, h5), i + 4)
  {
    hide Rest, Goes;
    GoesOn(i, cd0, cd1, x1, h0, h1, h2);
    GoesOn(i + 1, cd1, cd2, x2, h1, h2, h3);
    GoesOn(i + 2, cd2, cd3, x3, h2, h3, h4);
    GoesOn(i + 3, cd3, cd4, x4, h3, h4, h5);
  }

  lemma Early1()
    ensures Rest(First(0x5CD54CA83DEF57DA, 0x0131D9619DC1376E), 0) == Rest(State(0x3294D2B251B034, 0xB1DFFEA4, 0x826C4E7A), 8)
  {
    hide Rest;
    FourOn(0, 0x34ACCA5C0D0946, 0x695994A81A128D, 0xD2B3294034251B, 0x4ACCA530D0946C, 0x2B3294D34251B0,
           0x13539E47B047, 0xBD8FBC14F866, 0x80D5190AC111, 0xAD8282F0DEC2,
           0xE7D37772, 0xAA38BDE0, 0x906A721, 0xAE21133E, 0x900B2209, 0x3AAB2768);
    FourOn(4, 0x2B3294D34251B0, 0xACCA534D0946C0, 0xB3294D24251B03, 0xCCA534A0946C0D, 0x3294D2B251B034,
           0x18DD08BEF6B, 0xB5F479DFCDAA, 0x2C387BAA898A, 0x9935E31E5D8D,
           0x900B2209, 0x3AAB2768, 0x1EA1A495, 0x38B571F, 0xB1DFFEA4, 0x826C4E7A);
  }

  lemma Late1()
    ensures Rest(State(0x3294D2B251B034, 0xB1DFFEA4, 0x826C4E7A), 8) == Rest(State(0x34ACCA5C0D0946, 0x44932761, 0xE1DF14B4), 16)
  {
    hide Rest;
    FourOn(8, 0x3294D2B251B034, 0x6529A564A36068, 0x94A695928D81A1, 0x529A566A360684, 0x4A695998D81A12,
           0x3207B32661AD, 0x26EB5354885F, 0x1AF66A7739D2, 0x531623C7F8E,
           0xB1DFFEA4, 0x826C4E7A, 0xB94BC9AF, 0x33BAB9FA, 0x602AC0E4, 0x13DAA5FA);
    FourOn(12, 0x4A695998D81A12, 0x29A5665360684A, 0xA695994D81A128, 0x9A5665260684A3, 0x34ACCA5C0D0946,
           0xAD721574FF2D, 0x4F1DB373A715, 0xBCC1120CC584, 0x43FD2487BB08,
           0x602AC0E4, 0x13DAA5FA, 0x2BE3E0EB, 0x42C55252, 0x44932761, 0xE1DF14B4);
  }

  lemma Answer1()
    ensures Encrypt(Of(0x5CD54CA83DEF57DA, 64), Of(0x0131D9619DC1376E, 64)) == Of(0x7A389D10354BD271, 64)
  {
    hide Rest, First, Encrypt, Of;
    Early1();
    Late1();
    Ends(0x5CD54CA83DEF57DA, 0x0131D9619DC1376E, 0x34ACCA5C0D0946, 0x44932761, 0xE1DF14B4, 0xE1DF14B444932761, 0x7A389D10354BD271);
  }

  lemma Early2()
    ensures Rest(First(0x0248D43806F67172, 0x07A1133E4A0B2686), 0) == Rest(State(0x12820844E33F72, 0xB204237A, 0x6FAEE064), 8)
  {
    hide Rest;
    FourOn(0, 0x82104A0FDC938C, 0x420941FB92719, 0x841282F724E33, 0x2104A08DC938CF, 0x8412820724E33F,
           0xF1D7547E64C5, 0x51232B81FEEA, 0x3D131BF2D1C0, 0x121EF19407F0,
           0xE6EC3440, 0x24E80AB1, 0xA8E1D9AE, 0xF8EDCD85, 0xB698F4D0, 0x6D7009DF);
    FourOn(4, 0x8412820724E33F, 0x104A082C938CFD, 0x412820824E33F7, 0x4A0821938CFDC, 0x12820844E33F72,
           0xB51AAAC6D990, 0xB5134C9637D6, 0x91CA5E4DE92C, 0x5AE1985F915D,
           0xB698F4D0, 0x6D7009DF, 0x28E7D50F, 0xE44F2DA9, 0xB204237A, 0x6FAEE064);
  }

  lemma Late2()
    ensures Rest(State(0x12820844E33F72, 0xB204237A, 0x6FAEE064), 8) == Rest(State(0x82104A0FDC938C, 0xB724D697, 0x58EC234C), 16)
  {
    hide Rest;
    FourOn(8, 0x12820844E33F72, 0x25041089C67EE4, 0x9410420719FB92, 0x5041082C67EE49, 0x410420919FB927,
           0xB7BD1978EDB3, 0x8D2308CF364F, 0xF717F1BFD0A, 0x1B7ABCFA52AB,
           0xB204237A, 0x6FAEE064, 0xB04634D, 0x1A0B25D8, 0x33DEDD37, 0x1724240E);
    FourOn(12, 0x410420919FB927, 0x41082567EE49C, 0x10420949FB9271, 0x41082507EE49C6, 0x82104A0FDC938C,
           0x4BA388E286A8, 0x2F5A7713D623, 0x70AFE183B46C, 0xD2C319D0E868,
           0x33DEDD37, 0x1724240E, 0x7F7B93B6, 0xC5716E5A, 0xB724D697, 0x58EC234C);
  }

  lemma Answer2()
    ensures Encrypt(Of(0x0248D43806F67172, 64), Of(0x07A1133E4A0B2686, 64)) == Of(0x868EBB51CAB4599A, 64)
  {
    hide Rest, First, Encrypt, Of;
    Early2();
    Late2();
    Ends(0x0248D43806F67172, 0x07A1133E4A0B2686, 0x82104A0FDC938C, 0xB724D697, 0x58EC234C, 0x58EC234CB724D697, 0x868EBB51CAB4599A);
  }

  lemma Early3()
    ensures Rest(First(0x51454B582DDF440A, 0x3849674C2602319E), 0) == Rest(State(0x957200322C6D27, 0x19DF077C, 0x345E628F), 8)
  {
    hide Rest;
    FourOn(0, 0x800E55CB49C8B1, 0x1CAB96939163, 0x39572D2722C6, 0xE55C849C8B1B, 0x3957202722C6D,
           0xC12EA3F82E04, 0xE0DD75CF3908, 0x6A59DB0B1913, 0xFAA677F57FE9,
           0x6F297237, 0x2010BCA4, 0xA6ED81E1, 0x933FAB0B, 0xF501AD82, 0x234AAA72);
    FourOn(4, 0x3957202722C6D, 0xE55C809C8B1B4, 0x3957200722C6D2, 0xE55C800C8B1B49, 0x957200322C6D27,
           0xD4186585FF27, 0x46D7671EEF3A, 0x5AC718D15044, 0x26EDB6B43AC8,
           0xF501AD82, 0x234AAA72, 0x8203E721, 0x24AD9167, 0x19DF077C, 0x345E628F);
  }

  lemma Late3()
    ensures Rest(State(0x957200322C6D27, 0x19DF077C, 0x345E628F), 8) == Rest(State(0x800E55CB49C8B1, 0x64ABCACC, 0x2B630C75), 16)
  {
    hide Rest;
    FourOn(8, 0x957200322C6D27, 0x2AE4007458DA4E, 0xAB9001C1636939, 0xAE4007258DA4E4, 0xB9001CA6369391,
           0x3D9264AE1C82, 0xF1D482C1AED6, 0xF173BB594F22, 0x141C41B57604,
           0x19DF077C, 0x345E628F, 0xDEC903A3, 0xD9719765, 0x31A6BB20, 0x34045AF);
    FourOn(12, 0xB9001CA6369391, 0xE40072A8DA4E45, 0x9001CAB3693916, 0x40072AEDA4E458, 0x800E55CB49C8B1,
           0x8A260D38DEE0, 0x7994793F8C2D, 0xB5C6A8B85F8B, 0xA815D11493CB,
           0x31A6BB20, 0x34045AF, 0x65A89696, 0x6B40F3F8, 0x64ABCACC, 0x2B630C75);
  }

  lemma Answer3()
    ensures Encrypt(Of(0x51454B582DDF440A, 64), Of(0x3849674C2602319E, 64)) == Of(0x7178876E01F19B2A, 64)
  {
    hide Rest, First, Encrypt, Of;
    Early3();
    Late3();
    Ends(0x51454B582DDF440A, 0x3849674C2602319E, 0x800E55CB49C8B1, 0x64ABCACC, 0x2B630C75, 0x2B630C7564ABCACC, 0x7178876E01F19B2A);
  }

  lemma Early4()
    ensures Rest(First(0x42FD443059577FA2, 0x04B915BA43FEB5B6), 0) == Rest(State(0x3ABBA8C4ABAE39, 0x11C84BAA, 0x412A5AC2), 8)
  {
    hide Rest;
    FourOn(0, 0xEA30EAEB8E52AE, 0xD461D5D71CA55D, 0xA8C3ABBE394ABA, 0xA30EAEE8E52AEB, 0x8C3ABBA394ABAE,
           0xB907F1D8466E, 0x3FC2806FC5F7, 0xF0512E3DB2C6, 0xC651A7E6DE43,
           0x777A6672, 0x82CA52E1, 0xC3D42030, 0x77BA62E6, 0x75F49143, 0x2EC1DF49);
    FourOn(4, 0x8C3ABBA394ABAE, 0x30EAEEAE52AEB8, 0xC3ABBA894ABAE3, 0xEAEEA352AEB8E, 0x3ABBA8C4ABAE39,
           0xF76B09052CB4, 0x7DF9738C3177, 0xFAC71BCB14F1, 0x6C99E2FE9E34,
           0x75F49143, 0x2EC1DF49, 0x2AA227DE, 0x3960AA50, 0x11C84BAA, 0x412A5AC2);
  }

  lemma Late4()
    ensures Rest(State(0x3ABBA8C4ABAE39, 0x11C84BAA, 0x412A5AC2), 8) == Rest(State(0xEA30EAEB8E52AE, 0xA507351F, 0x4C96B397), 16)
  {
    hide Rest;
    FourOn(8, 0x3ABBA8C4ABAE39, 0x75775189575C72, 0xD5DD46155D71CA, 0x5775187575C729, 0x5DD461D5D71CA5,
           0x92FA316A9CBB, 0x693192678A8A, 0x940CAF317AFD, 0x4F80C4536E02,
           0x11C84BAA, 0x412A5AC2, 0xC358E4CB, 0x6BE97764, 0xB6E2A433, 0x5F82A5A0);
    FourOn(12, 0x5DD461D5D71CA5, 0x775187575C7295, 0xDD461D5D71CA55, 0x75187575C72957, 0xEA30EAEB8E52AE,
           0x7CA7F42AB095, 0xA7D894AB556B, 0x9D335C7CC21, 0xBE8697A606AC,
           0xB6E2A433, 0x5F82A5A0, 0x7128C09A, 0x349D05F4, 0xA507351F, 0x4C96B397);
  }

  lemma Answer4()
    ensures Encrypt(Of(0x42FD443059577FA2, 64), Of(0x04B915BA43FEB5B6, 64)) == Of(0xAF37FB421F8C4095, 64)
  {
    hide Rest, First, Encrypt, Of;
    Early4();
    Late4();
    Ends(0x42FD443059577FA2, 0x04B915BA43FEB5B6, 0xEA30EAEB8E52AE, 0xA507351F, 0x4C96B397, 0x4C96B397A507351F, 0xAF37FB421F8C4095);
  }

  lemma Early5()
    ensures Rest(First(0x059B5E0851CF143A, 0x0113B970FD34F2CE), 0) == Rest(State(0x1F1F536253B0AC, 0x7F3CC00, 0x1F0B9D82), 8)
  {
    hide Rest;
    FourOn(0, 0xD4D87C7C2B094E, 0xA9B0F8F856129D, 0x5361F1F0AC253B, 0x4D87C7D2B094EC, 0x361F1F5AC253B0,
           0x7F72CD1DDACA, 0xEEBEAFF11966, 0x65DD10D0539A, 0xEC3C1CED16CB,
           0x34D66533, 0x2280AEA6, 0x3D694D03, 0x60B8E7FB, 0xFEF50D0C, 0x6686BAE6);
    FourOn(4, 0x361F1F5AC253B0, 0xD87C7D4B094EC2, 0x61F1F53C253B0A, 0x87C7D4D094EC2B, 0x1F1F536253B0AC,
           0x8CE38A621337, 0x9C7FCC40F0E9, 0x992CFB6BDD89, 0x943459440EC4,
           0xFEF50D0C, 0x6686BAE6, 0xDB309D15, 0xA787D99E, 0x7F3CC00, 0x1F0B9D82);
  }

  lemma Late5()
    ensures Rest(State(0x1F1F536253B0AC, 0x7F3CC00, 0x1F0B9D82), 8) == Rest(State(0xD4D87C7C2B094E, 0x6B0ED0B1, 0xECC8338A), 16)
  {
    hide Rest;
    FourOn(8, 0x1F1F536253B0AC, 0x3E3EA6C4A76158, 0xF8FA9B029D8561, 0xE3EA6C3A761584, 0x8FA9B0F9D85612,
           0xE927C58C8E5C, 0x91FA0064F28F, 0x744A0D95DF53, 0x826CA19C8210,
           0x7F3CC00, 0x1F0B9D82, 0xDA23AA71, 0xBFCB6E3A, 0xD90F8553, 0x41958ABB);
    FourOn(12, 0x8FA9B0F9D85612, 0x3EA6C3E761584A, 0xFA9B0F8D856129, 0xEA6C3E361584A7, 0xD4D87C7C2B094E,
           0x56F533E21D2F, 0xD497C70CA6A4, 0xFFA9E4480575, 0xBC1FD27D47E8,
           0xD90F8553, 0x41958ABB, 0x919A18FB, 0xA4BDDC08, 0x6B0ED0B1, 0xECC8338A);
  }

  lemma Answer5()
    ensures Encrypt(Of(0x059B5E0851CF143A, 64), Of(0x0113B970FD34F2CE, 64)) == Of(0x86A560F10EC6D85B, 64)
  {
    hide Rest, First, Encrypt, Of;
    Early5();
    Late5();
    Ends(0x059B5E0851CF143A, 0x0113B970FD34F2CE, 0xD4D87C7C2B094E, 0x6B0ED0B1, 0xECC8338A, 0xECC8338A6B0ED0B1, 0x86A560F10EC6D85B);
  }

  lemma Early6()
    ensures Rest(First(0x3BDD119049372802, 0x07A7137045DA2A16), 0) == Rest(State(0x12A888ED8339E4, 0x4D96F32F, 0x91F5BCB8), 8)
  {
    hide Rest;
    FourOn(0, 0x22384AAE79360C, 0x4470954CF26C19, 0x88E12A89E4D833, 0x2384AA279360CE, 0x8E12A88E4D8339,
           0xF51187E81EF4, 0xF97C299E5494, 0xF7ECA6886555, 0xB367ECD17935,
           0x122F2237, 0xA6153A1, 0xAA04B5A3, 0x6E1F5A64, 0xFC3E571B, 0xB17B447D);
    FourOn(4, 0x8E12A88E4D8339, 0x384AA229360CE7, 0xE12A8884D8339E, 0x84AA223360CE79, 0x12A888ED8339E4,
           0x9CB6FCA444D4, 0xAFE0BB713E3B, 0x93D9A47757A7, 0xC59D37799755,
           0xFC3E571B, 0xB17B447D, 0x8A1C585F, 0x70B73CCF, 0x4D96F32F, 0x91F5BCB8);
  }

  lemma Late6()
    ensures Rest(State(0x12A888ED8339E4, 0x4D96F32F, 0x91F5BCB8), 8) == Rest(State(0x22384AAE79360C, 0x2B20F5E7, 0x1753B3A9), 16)
  {
    hide Rest;
    FourOn(8, 0x12A888ED8339E4, 0x255111CB0673C9, 0x9544470C19CF26, 0x55111C20673C9B, 0x544470919CF26C,
           0x586D4FF78AAA, 0x48B3B63510C1, 0x7AE3CC159841, 0x11BF525796A7,
           0x4D96F32F, 0x91F5BCB8, 0xA75B561B, 0xF410A6F0, 0x274B99DD, 0xD5FE6A5F);
    FourOn(12, 0x544470919CF26C, 0x5111C25673C9B0, 0x44470959CF26C1, 0x111C25573C9B06, 0x22384AAE79360C,
           0xABB41DD6946B, 0x8E9853ACDBF3, 0x144697F18FFB, 0xB7431B41B7E8,
           0x274B99DD, 0xD5FE6A5F, 0x3B196F8C, 0xA2A9EFF, 0x2B20F5E7, 0x1753B3A9);
  }

  lemma Answer6()
    ensures Encrypt(Of(0x3BDD119049372802, 64), Of(0x07A7137045DA2A16, 64)) == Of(0xDFD64A815CAF1A0F, 64)
  {
    hide Rest, First, Encrypt, Of;
    Early6();
    Late6();
    Ends(0x3BDD119049372802, 0x07A7137045DA2A16, 0x22384AAE79360C, 0x2B20F5E7, 0x1753B3A9, 0x1753B3A92B20F5E7, 0xDFD64A815CAF1A0F);
  }

  lemma Early7()
    ensures Rest(First(0x26955F6835AF609A, 0x04689104C2FD3B2F), 0) == Rest(State(0xB898D0C789342A, 0xE6BD0F74, 0xBCAF2E55), 8)
  {
    hide Rest;
    FourOn(0, 0x3432E26D0A9E24, 0x6865C4CA153C49, 0xD0CB89842A7893, 0x432E2630A9E24D, 0xCB898D2A78934,
           0x365352F4DC65, 0xC273D09CA7B2, 0x219AA52CC95E, 0x4F61DBAE6758,
           0x4C963736, 0xA279ACA5, 0x36599711, 0xDF6F03, 0x506E9CAC, 0x459BC4FA);
    FourOn(4, 0xCB898D2A78934, 0x32E2634A9E24D0, 0xCB898D0A789342, 0x2E263439E24D0A, 0xB898D0C789342A,
           0x12216790B1DA, 0x4C75DFB90D22, 0xE2504C010FAE, 0x3ED67CB243C8,
           0x506E9CAC, 0x459BC4FA, 0x22B608B6, 0x8C880BAE, 0xE6BD0F74, 0xBCAF2E55);
  }

  lemma Late7()
    ensures Rest(State(0xB898D0C789342A, 0xE6BD0F74, 0xBCAF2E55), 8) == Rest(State(0x3432E26D0A9E24, 0xE8049D20, 0x530F2D02), 16)
  {
    hide Rest;
    FourOn(8, 0xB898D0C789342A, 0x7131A19F126854, 0xC4C6865C49A153, 0x131A197126854F, 0x4C6865C49A153C,
           0xAC923FF780B4, 0xC5B25E8788D, 0xDEA32554846E, 0x6B6B88BD2FC9,
           0xE6BD0F74, 0xBCAF2E55, 0x8C727B23, 0x981DA4E3, 0xB9E5DCB6, 0xE18B84F8);
    FourOn(12, 0x4C6865C49A153C, 0x31A197126854F1, 0xC6865C49A153C4, 0x1A197136854F12, 0x3432E26D0A9E24,
           0x33533B01A49, 0xE88A912CD516, 0xDAEF67359A6B, 0x17CF81D56322,
           0xB9E5DCB6, 0xE18B84F8, 0xC3424F26, 0x9F0CB74D, 0xE8049D20, 0x530F2D02);
  }

  lemma Answer7()
    ensures Encrypt(Of(0x26955F6835AF609A, 64), Of(0x04689104C2FD3B2F, 64)) == Of(0x5C513C9C4886C088, 64)
  {
    hide Rest, First, Encrypt, Of;
    Early7();
    Late7();
    Ends(0x26955F6835AF609A, 0x04689104C2FD3B2F, 0x3432E26D0A9E24, 0xE8049D20, 0x530F2D02, 0x530F2D02E8049D20, 0x5C513C9C4886C088);
  }

  lemma Early8()
    ensures Rest(First(0x164D5E404F275232, 0x37D06BB516CB7546), 0) == Rest(State(0x9354AB9492ED76, 0xCE47F5BC, 0xEE5CC949), 8)
  {
    hide Rest;
    FourOn(0, 0x2AE64D5B5D924B, 0x55CC9AA6BB2497, 0xAB99354D76492E, 0xAE64D525D924BB, 0xB99354A76492ED,
           0x406C4F7DF08E, 0xDB92A619EFD4, 0xE4C4B9083241, 0xE1AA960ADA9A,
           0x5EC53732, 0xA016F5, 0x8C8839A1, 0x3492BCF2, 0xD93D42E9, 0xA3B78BFC);
    FourOn(4, 0xB99354A76492ED, 0xE64D52AD924BB5, 0x99354AB6492ED7, 0x64D52AE924BB5D, 0x9354AB9492ED76,
           0xDA25908F88EE, 0xA2EAC50FD254, 0x88BDA36818B7, 0xBCFD5F3C4FC5,
           0xD93D42E9, 0xA3B78BFC, 0x1E36E4FE, 0x1665423E, 0xCE47F5BC, 0xEE5CC949);
  }

  lemma Late8()
    ensures Rest(State(0x9354AB9492ED76, 0xCE47F5BC, 0xEE5CC949), 8) == Rest(State(0x2AE64D5B5D924B, 0x6CFE5FDF, 0xA4B0BCD0), 16)
  {
    hide Rest;
    FourOn(8, 0x9354AB9492ED76, 0x26A9573925DAEC, 0x9AA55CC4976BB2, 0x6A9573225DAEC9, 0xAA55CC9976BB24,
           0xC68AC7ECE608, 0xA32346FF62E8, 0xBC9B97197BB0, 0x7A3133528C8D,
           0xCE47F5BC, 0xEE5CC949, 0x1859649E, 0x54B541CE, 0x6861B2C5, 0x728FDE6D);
    FourOn(12, 0xAA55CC9976BB24, 0xA9573265DAEC92, 0xA55CC9A76BB249, 0x957326ADAEC925, 0x2AE64D5B5D924B,
           0x34CAB339A5EF, 0xCAE4E29E609D, 0x7DD3E028C1B, 0x2276C92F731,
           0x6861B2C5, 0x728FDE6D, 0x24D44B6A, 0x584B23E4, 0x6CFE5FDF, 0xA4B0BCD0);
  }

  lemma Answer8()
    ensures Encrypt(Of(0x164D5E404F275232, 64), Of(0x37D06BB516CB7546, 64)) == Of(0x0A2AEEAE3FF4AB77, 64)
  {
    hide Rest, First, Encrypt, Of;
    Early8();
    Late8();
    Ends(0x164D5E404F275232, 0x37D06BB516CB7546, 0x2AE64D5B5D924B, 0x6CFE5FDF, 0xA4B0BCD0, 0xA4B0BCD06CFE5FDF, 0xA2AEEAE3FF4AB77);
  }

  lemma Early9()
    ensures Rest(First(0x6B056E18759F5CCA, 0x1F08260D1AC2465E), 0) == Rest(State(0x12483866C7D73, 0xD5567C98, 0xBEAD23A8), 8)
  {
    hide Rest;
    FourOn(0, 0x20E0049F5CD9B1, 0x41C0092EB9B363, 0x8380124D7366C7, 0xE004925CD9B1F, 0x38012487366C7D,
           0xC030E24A0405, 0xFD757FCA07B4, 0xFB9EE4F0C6CE, 0x33B929224125,
           0xD5787633, 0xA015EDA5, 0xEBB58805, 0xDFDE5DE7, 0x6D84844C, 0xE7393B1D);
    FourOn(4, 0x38012487366C7D, 0xE004920CD9B1F5, 0x8012483366C7D7, 0x4920ED9B1F5C, 0x12483866C7D73,
           0x3AE1F74CD575, 0x73C8A199BFE0, 0xAD6FE51079F, 0x9AA2EC494D49,
           0x6D84844C, 0xE7393B1D, 0xF354ED0C, 0x164A13B8, 0xD5567C98, 0xBEAD23A8);
  }

  lemma Late9()
    ensures Rest(State(0x12483866C7D73, 0xD5567C98, 0xBEAD23A8), 8) == Rest(State(0x20E0049F5CD9B1, 0x252DBBEB, 0xF5FE5953), 16)
  {
    hide Rest;
    FourOn(8, 0x12483866C7D73, 0x249070CD8FAE6, 0x9241C0363EB9B, 0x2490700D8FAE6C, 0x9241C0063EB9B3,
           0x4FCD680E91CF, 0xF4E24B083C28, 0x923857545DC1, 0x882FC65C62AF,
           0xD5567C98, 0xBEAD23A8, 0xA647CB7C, 0x23C99DF5, 0x81DB55B5, 0xBAA8F45F);
    FourOn(12, 0x9241C0063EB9B3, 0x49070028FAE6CD, 0x241C0093EB9B36, 0x9070024FAE6CD8, 0x20E0049F5CD9B1,
           0x5BD538E2A501, 0xA928AF987B89, 0x426776E8322E, 0xB3B95B2DA2C1,
           0x81DB55B5, 0xBAA8F45F, 0x5356CC24, 0xD39B328A, 0x252DBBEB, 0xF5FE5953);
  }

  lemma Answer9()
    ensures Encrypt(Of(0x6B056E18759F5CCA, 64), Of(0x1F08260D1AC2465E, 64)) == Of(0xEF1BF03E5DFA575A, 64)
  {
    hide Rest, First, Encrypt, Of;
    Early9();
    Late9();
    Ends(0x6B056E18759F5CCA, 0x1F08260D1AC2465E, 0x20E0049F5CD9B1, 0x252DBBEB, 0xF5FE5953, 0xF5FE5953252DBBEB, 0xEF1BF03E5DFA575A);
  }

  lemma Early10()
    ensures Rest(First(0x004BD6EF09176062, 0x584023641ABA6176), 0) == Rest(State(0xFB2C8320C46D22, 0x35A73C63, 0x9DE7CFC5), 8)
  {
    hide Rest;
    FourOn(0, 0x20CBECBB488311, 0x4197D966910623, 0x832FB2CD220C46, 0xCBECB2488311B, 0x32FB2C8220C46D,
           0xD534BD20F478, 0x18CF50863E88, 0x8115FE697911, 0x5DB5C7EA5421,
           0xCE242C3A, 0xCC81AAE, 0xE2730391, 0xEFFA7A08, 0xF85A96AC, 0x4D512D8E);
    FourOn(4, 0x32FB2C8220C46D, 0xCBECB2088311B4, 0x2FB2C8320C46D2, 0xBECB20C8311B48, 0xFB2C8320C46D22,
           0xC9B6F5D4025E, 0x52745859F838, 0x74151DF9B31B, 0x64B4559B73B6,
           0xF85A96AC, 0x4D512D8E, 0x6CC04F80, 0xF617E76A, 0x35A73C63, 0x9DE7CFC5);
  }

  lemma Late10()
    ensures Rest(State(0xFB2C8320C46D22, 0x35A73C63, 0x9DE7CFC5), 8) == Rest(State(0x20CBECBB488311, 0x5B4A67DA, 0xD09AFE36), 16)
  {
    hide Rest;
    FourOn(8, 0xFB2C8320C46D22, 0xF659065188DA44, 0xD9641976236910, 0x659065F88DA441, 0x964197D2369106,
           0xC4E4BC7D9612, 0x224C6839EFB2, 0xF6F8C8CE0881, 0xFC0CB8ABDBAE,
           0x35A73C63, 0x9DE7CFC5, 0x3BB2B5B1, 0xCDC0B935, 0x4AA61E35, 0x385E6D26);
    FourOn(12, 0x964197D2369106, 0x59065F68DA4418, 0x64197D93691062, 0x9065F65DA44188, 0x20CBECBB488311,
           0x8BAB31658BFA, 0xCCF28F1FDF7E, 0x99E100375DF2, 0x6CDE7EC8EF77,
           0x4AA61E35, 0x385E6D26, 0xBC9452FB, 0xE7926B30, 0x5B4A67DA, 0xD09AFE36);
  }

  lemma Answer10()
    ensures Encrypt(Of(0x004BD6EF09176062, 64), Of(0x584023641ABA6176, 64)) == Of(0x88BF0DB6D70DEE56, 64)
  {
    hide Rest, First, Encrypt, Of;
    Early10();
    Late10();
    Ends(0x004BD6EF09176062, 0x584023641ABA6176, 0x20CBECBB488311, 0x5B4A67DA, 0xD09AFE36, 0xD09AFE365B4A67DA, 0x88BF0DB6D70DEE56);
  }

  lemma Early11()
    ensures Rest(First(0x437540C8698F3CFA, 0x49793EBC79B3258F), 0) == Rest(State(0xDF8EA0427FA933, 0x8CCE966, 0x9C883DB8), 8)
  {
    hide Rest;
    FourOn(0, 0xA8137E3A4CC9FE, 0x5026FC749993FD, 0xA04DF8E93327FA, 0x8137E3A4CC9FEA, 0x4DF8EA3327FA9,
           0x34B328A4A84F, 0x355F09B77CC4, 0x28CF6E1BD5B7, 0x45C52CB8F7D3,
           0x9FC26233, 0xA8D2F8A1, 0xFB73F755, 0xA223092F, 0x9E32113, 0x23F27617);
    FourOn(4, 0x4DF8EA3327FA9, 0x137E3A8CC9FEA4, 0x4DF8EA0327FA93, 0x37E3A81C9FEA4C, 0xDF8EA0427FA933,
           0x30C0F2A12C1C, 0xEFD47CDB2E8, 0xCF7DF7EDEFF, 0xC9D38A80F888,
           0x9E32113, 0x23F27617, 0xD46247BC, 0xD857CD90, 0x8CCE966, 0x9C883DB8);
  }

  lemma Late11()
    ensures Rest(State(0xDF8EA0427FA933, 0x8CCE966, 0x9C883DB8), 8) == Rest(State(0xA8137E3A4CC9FE, 0x3A2B3F9B, 0xB1A6FF7B), 16)
  {
    hide Rest;
    FourOn(8, 0xDF8EA0427FA933, 0xBF1D4094FF5266, 0xFC750263FD4999, 0xF1D409BFF52664, 0xC75026FFD49993,
           0xC0D72200176D, 0x245AA14E0AD7, 0x9B31BEE175F7, 0x294A7B533E7F,
           0x8CCE966, 0x9C883DB8, 0x10247BE1, 0x5B96AC, 0x40916A7C, 0xF8A80823);
    FourOn(12, 0xC75026FFD49993, 0x1D409BFF52664F, 0x75026FCD49993F, 0xD409BF152664FF, 0xA8137E3A4CC9FE,
           0xAA6C9C2B02F8, 0x9710361DCF69, 0x86062F792D26, 0x90EF7A6B282C,
           0x40916A7C, 0xF8A80823, 0xFBB90D5, 0xBB647D4F, 0x3A2B3F9B, 0xB1A6FF7B);
  }

  lemma Answer11()
    ensures Encrypt(Of(0x437540C8698F3CFA, 64), Of(0x49793EBC79B3258F, 64)) == Of(0x6FBF1CAFCFFD0556, 64)
  {
    hide Rest, First, Encrypt, Of;
    Early11();
    Late11();
    Ends(0x437540C8698F3CFA, 0x49793EBC79B3258F, 0xA8137E3A4CC9FE, 0x3A2B3F9B, 0xB1A6FF7B, 0xB1A6FF7B3A2B3F9B, 0x6FBF1CAFCFFD0556);
  }

  lemma Early12()
    ensures Rest(First(0x02FE55778117F12A, 0x49E95D6D4CA229BF), 0) == Rest(State(0xFAA288737D2827, 0xFFA190C9, 0xC72EBC8), 8)
  {
    hide Rest;
    FourOn(0, 0xA21FEA8A09CDF4, 0x443FD514139BE9, 0x887FAA282737D2, 0x21FEA8A09CDF4A, 0x87FAA282737D28,
           0x5B9472CB8A1A, 0x1941D708DDD9, 0xE208B7C6872C, 0xD82201E4CE0A,
           0x4E6E2E7C, 0x52CA82AB, 0xEFFE8E79, 0x5DEB7E8, 0x6789889F, 0x8CFD6D06);
    FourOn(4, 0x87FAA282737D28, 0x1FEA8A29CDF4A0, 0x7FAA288737D282, 0xFEA8A21CDF4A09, 0xFAA288737D2827,
           0x216EA02404BE, 0x191BF84A7011, 0x755A1324CA26, 0x905C9AFFD7D6,
           0x6789889F, 0x8CFD6D06, 0x7FD5CBC2, 0x30E07D38, 0xFFA190C9, 0xC72EBC8);
  }

  lemma Late12()
    ensures Rest(State(0xFAA288737D2827, 0xFFA190C9, 0xC72EBC8), 8) == Rest(State(0xA21FEA8A09CDF4, 0x502EEBD3, 0xF7016806), 16)
  {
    hide Rest;
    FourOn(8, 0xFAA288737D2827, 0xF54510F6FA504E, 0xD51443FBE94139, 0x54510FFFA504E6, 0x51443FDE94139B,
           0x8ED24843548C, 0xE30A6FEEA72A, 0x1BF8A6F219D7, 0x6E7C35542BE1,
           0xFFA190C9, 0xC72EBC8, 0xF23338DC, 0x1467ADBE, 0xFA3870D3, 0xB3715838);
    FourOn(12, 0x51443FDE94139B, 0x4510FF5A504E6F, 0x1443FD594139BE, 0x510FF54504E6FA, 0xA21FEA8A09CDF4,
           0xB056783C00F, 0xA437FF85CBC4, 0x9F04B41B1378, 0x60AF6F84AA9C,
           0xFA3870D3, 0xB3715838, 0xEE4D80E3, 0x9C29ACE0, 0x502EEBD3, 0xF7016806);
  }

  lemma Answer12()
    ensures Encrypt(Of(0x02FE55778117F12A, 64), Of(0x49E95D6D4CA229BF, 64)) == Of(0x5A6B612CC26CCE4A, 64)
  {
    hide Rest, First, Encrypt, Of;
    Early12();
    Late12();
    Ends(0x02FE55778117F12A, 0x49E95D6D4CA229BF, 0xA21FEA8A09CDF4, 0x502EEBD3, 0xF7016806, 0xF7016806502EEBD3, 0x5A6B612CC26CCE4A);
  }

  lemma Early13()
    ensures Rest(First(0x1D9D5C5018F728C2, 0x018310DC409B26D6), 0) == Rest(State(0x102AAA60A338B2, 0xE53C7E40, 0xB3C59746), 8)
  {
    hide Rest;
    FourOn(0, 0xAA9840AE2C828C, 0x5530815C590519, 0xAA6102A8B20A33, 0xA9840AA2C828CE, 0xA6102AAB20A338,
           0x2100C179ECE7, 0xA17030634908, 0x2E1515543296, 0x9A2D4E7747BD,
           0xAC3F2723, 0xA26057A0, 0x1B045D47, 0x41AEC2CF, 0x226B3EFF, 0x265C3B3);
    FourOn(4, 0xA6102AAB20A338, 0x9840AAAC828CE2, 0x6102AAA20A338B, 0x840AAA9828CE2C, 0x102AAA60A338B2,
           0xCC7E03669B8C, 0x6D7BB9161E18, 0xE9AF5837AA80, 0x1004727A2C01,
           0x226B3EFF, 0x265C3B3, 0x5EF8502C, 0x426D5B59, 0xE53C7E40, 0xB3C59746);
  }

  lemma Late13()
    ensures Rest(State(0x102AAA60A338B2, 0xE53C7E40, 0xB3C59746), 8) == Rest(State(0xAA9840AE2C828C, 0x18606B6D, 0x93114BB5), 16)
  {
    hide Rest;
    FourOn(8, 0x102AAA60A338B2, 0x205554C1467164, 0x8155530519C590, 0x5554C24671641, 0x155530819C5905,
           0xD86CAFCA7094, 0x525BC9A914C2, 0xEAE73C0B21FD, 0x4A6A654ABAEA,
           0xE53C7E40, 0xB3C59746, 0x9236F01B, 0xD4AA014A, 0x91A0B67F, 0xBC376366);
    FourOn(12, 0x155530819C5905, 0x5554C206716414, 0x55530819C59051, 0x554C2057164146, 0xAA9840AE2C828C,
           0x9FDAEFD36BB9, 0x61679C9E00D6, 0xC1D430EC44B4, 0x81011A8F6F18,
           0x91A0B67F, 0xBC376366, 0xC49EB92E, 0x843992D4, 0x18606B6D, 0x93114BB5);
  }

  lemma Answer13()
    ensures Encrypt(Of(0x1D9D5C5018F728C2, 64), Of(0x018310DC409B26D6, 64)) == Of(0x5F4C038ED12B2E41, 64)
  {
    hide Rest, First, Encrypt, Of;
    Early13();
    Late13();
    Ends(0x1D9D5C5018F728C2, 0x018310DC409B26D6, 0xAA9840AE2C828C, 0x18606B6D, 0x93114BB5, 0x93114BB518606B6D, 0x5F4C038ED12B2E41);
  }

  lemma Early14()
    ensures Rest(First(0x305532286D6F295A, 0x1C587F1C13924FEF), 0) == Rest(State(0xA10E83173FFD33, 0x94D2CCB6, 0x3745C02F), 8)
  {
    hide Rest;
    FourOn(0, 0xA0C6843F4CDCFF, 0x418D087E99B9FF, 0x831A10ED3373FF, 0xC6843A4CDCFFF, 0x31A10E83373FFD,
           0x81231008E846, 0x387E7B357553, 0x4EA4590FC909, 0xCDBCC043E1CA,
           0xB2873272, 0x7DF8A4, 0x6792F746, 0xF789A198, 0xDCB051D3, 0x7872FEB6);
    FourOn(4, 0x31A10E83373FFD, 0xC6843A0CDCFFF4, 0x1A10E83373FFD3, 0x6843A0CDCFFF4C, 0xA10E83173FFD33,
           0xB76FB0A52912, 0x5570BA58E3E5, 0xC6A959A43A55, 0x911EE7924E98,
           0xDCB051D3, 0x7872FEB6, 0x22F16D8C, 0x1BC7A17, 0x94D2CCB6, 0x3745C02F);
  }

  lemma Late14()
    ensures Rest(State(0xA10E83173FFD33, 0x94D2CCB6, 0x3745C02F), 8) == Rest(State(0xA0C6843F4CDCFF, 0xEE5322C3, 0x6FFA50E1), 16)
  {
    hide Rest;
    FourOn(8, 0xA10E83173FFD33, 0x421D063E7FFA66, 0x87418D9FFE99B, 0x21D06347FFA66E, 0x87418D0FFE99B9,
           0x1BE0305FCBC0, 0x80CFD18F5DD7, 0x2D9C6CA00BB1, 0x92A783270034,
           0x94D2CCB6, 0x3745C02F, 0x4FAAB140, 0x7C563D2E, 0x96F9AFF9, 0x74E09E76);
    FourOn(12, 0x87418D0FFE99B9, 0x1D06342FFA66E7, 0x7418D08FE99B9F, 0xD063421FA66E7F, 0xA0C6843F4CDCFF,
           0xBE524D716413, 0xA87CAD6F576C, 0xE6A6255B6374, 0x3E52AE669BFC,
           0x96F9AFF9, 0x74E09E76, 0xD1F52157, 0x99E26C07, 0xEE5322C3, 0x6FFA50E1);
  }

  lemma Answer14()
    ensures Encrypt(Of(0x305532286D6F295A, 64), Of(0x1C587F1C13924FEF, 64)) == Of(0x63FAC0D034D9F793, 64)
  {
    hide Rest, First, Encrypt, Of;
    Early14();
    Late14();
    Ends(0x305532286D6F295A, 0x1C587F1C13924FEF, 0xA0C6843F4CDCFF, 0xEE5322C3, 0x6FFA50E1, 0x6FFA50E1EE5322C3, 0x63FAC0D034D9F793);
  }

  lemma Early15()
    ensures Rest(First(0x0123456789ABCDEF, 0x133457799BBCDFF1), 0) == Rest(State(0x2ABFC339E3D559, 0x64ABA10, 0xD5694B90), 8)
  {
    hide Rest;
    FourOn(0, 0xF0CCAAF556678F, 0xE19955FAACCF1E, 0xC332ABF5599E3D, 0xCCAAFF56678F5, 0x332ABFC599E3D5,
           0x6117BA866527, 0xC448DEB63EC, 0xB07C88F827CA, 0x22EF2EDE4AB4,
           0xCC00CCFF, 0xF0AAF0AA, 0xEF4A6544, 0xCC017709, 0xA25C0BF4, 0x77220045);
    FourOn(4, 0x332ABFC599E3D5, 0xCCAAFF06678F55, 0x32ABFC399E3D55, 0xCAAFF0C678F556, 0x2ABFC339E3D559,
           0xC60503EB51A2, 0xA6E76180BA80, 0x19AFB813B3EF, 0xF7486F9E7B5B,
           0xA25C0BF4, 0x77220045, 0x8A4FA637, 0xE967CD69, 0x64ABA10, 0xD5694B90);
  }

  lemma Late15()
    ensures Rest(State(0x2ABFC339E3D559, 0x64ABA10, 0xD5694B90), 8) == Rest(State(0xF0CCAAF556678F, 0x43423234, 0xA4CD995), 16)
  {
    hide Rest;
    FourOn(8, 0x2ABFC339E3D559, 0x557F8663C7AAB3, 0x55FE199F1EAACC, 0x57F8665C7AAB33, 0x5FE19951EAACCF,
           0x8A70B9489B20, 0xA170BEDA85BB, 0x7BA178342E23, 0x15DA058BE418,
           0x64ABA10, 0xD5694B90, 0x247CC67A, 0xB7D5D7B2, 0xC5783C78, 0x75BD1858);
    FourOn(12, 0x5FE19951EAACCF, 0x7F866557AAB33C, 0xFE19955EAACCF1, 0xF866557AAB33C7, 0xF0CCAAF556678F,
           0xAD782B75B8B1, 0x5055B1784DCE, 0x5FC5D477FF51, 0xEB578F14565D,
           0xC5783C78, 0x75BD1858, 0x18C3155A, 0xC28C960D, 0x43423234, 0xA4CD995);
  }

  lemma Answer15()
    ensures Encrypt(Of(0x0123456789ABCDEF, 64), Of(0x133457799BBCDFF1, 64)) == Of(0x85E813540F0AB405, 64)
  {
    hide Rest, First, Encrypt, Of;
    Early15();
    Late15();
    Ends(0x0123456789ABCDEF, 0x133457799BBCDFF1, 0xF0CCAAF556678F, 0x43423234, 0xA4CD995, 0x0A4CD99543423234, 0x85E813540F0AB405);
  }

  lemma Early16()
    ensures Rest(First(0x0000000000000000, 0x0E86CECEEEF64E26), 0) == Rest(State(0x2C08F9FD743FFF, 0x11A704CF, 0xAF6F550C), 8)
  {
    hide Rest;
    FourOn(0, 0x3E7CB02FFFF5D0, 0x7CF9604FFFEBA1, 0xF9F2C08FFFD743, 0xE7CB023FFF5D0F, 0x9F2C08FFFD743F,
           0x2657A3BBF797, 0x1ED14E051EE, 0x2B8C8677ADAF, 0xDA1DE5D82F1,
           0x0, 0x0, 0xDBCABB48, 0x429E86CC, 0x46025163, 0xDD7C1D27);
    FourOn(4, 0x9F2C08FFFD743F, 0x7CB023EFF5D0FF, 0xF2C08F9FD743FF, 0xCB023E7F5D0FFF, 0x2C08F9FD743FFF,
           0xD9E471E804D0, 0x84B940054A84, 0x87F82EAA80E5, 0xDD5980CE4BB1,
           0x46025163, 0xDD7C1D27, 0xBC08D7AD, 0x1299AAA5, 0x11A704CF, 0xAF6F550C);
  }

  lemma Late16()
    ensures Rest(State(0x2C08F9FD743FFF, 0x11A704CF, 0xAF6F550C), 8) == Rest(State(0x3E7CB02FFFF5D0, 0xD369892B, 0x45571B83), 16)
  {
    hide Rest;
    FourOn(8, 0x2C08F9FD743FFF, 0x5811F3EAE87FFF, 0x6047CF9BA1FFFE, 0x811F3E5E87FFFA, 0x47CF96A1FFFEB,
           0x1E4F3D655A3, 0x79D0DE228225, 0x298647AF812C, 0x1F222EA85C85,
           0x11A704CF, 0xAF6F550C, 0x531F9BCF, 0x411083EB, 0xDA902C7D, 0xEA0D1F86);
    FourOn(12, 0x47CF96A1FFFEB, 0x11F3E5887FFFAE, 0x47CF9601FFFEBA, 0x1F3E5817FFFAE8, 0x3E7CB02FFFF5D0,
           0x5D73A1222FB, 0x85CF8FED6C54, 0x107503D1522F, 0xC3C4D3617E8,
           0xDA902C7D, 0xEA0D1F86, 0x88FC6450, 0x6CCAD599, 0xD369892B, 0x45571B83);
  }

  lemma Answer16()
    ensures Encrypt(Of(0x0000000000000000, 64), Of(0x0E86CECEEEF64E26, 64)) == Of(0xFF97502E9422F089, 64)
  {
    hide Rest, First, Encrypt, Of;
    Early16();
    Late16();
    Ends(0x0000000000000000, 0x0E86CECEEEF64E26, 0x3E7CB02FFFF5D0, 0xD369892B, 0x45571B83, 0x45571B83D369892B, 0xFF97502E9422F089);
  }

  // ---- the answer to a challenge ----------------------------------------------------------

  lemma Fours(w: Word)
    ensures Nibbled(w, (w >> 60) & 15, 60) && Nibbled(w, (w >> 56) & 15, 56) && Nibbled(w, (w >> 52) & 15, 52) && Nibbled(w, (w >> 48) & 15, 48)
    ensures Nibbled(w, (w >> 44) & 15, 44) && Nibbled(w, (w >> 40) & 15, 40) && Nibbled(w, (w >> 36) & 15, 36) && Nibbled(w, (w >> 32) & 15, 32)
    ensures Nibbled(w, (w >> 28) & 15, 28) && Nibbled(w, (w >> 24) & 15, 24) && Nibbled(w, (w >> 20) & 15, 20) && Nibbled(w, (w >> 16) & 15, 16)
    ensures Nibbled(w, (w >> 12) & 15, 12) && Nibbled(w, (w >> 8) & 15, 8) && Nibbled(w, (w >> 4) & 15, 4) && Nibbled(w, (w >> 0) & 15, 0)
  {
  }

  lemma Digits16(row: seq<Nibble>, w: Word)
    requires RowIs(row, w)
    ensures Nibbled(w, Nib(row[0]), 60) && Nibbled(w, Nib(row[1]), 56) && Nibbled(w, Nib(row[2]), 52) && Nibbled(w, Nib(row[3]), 48)
    ensures Nibbled(w, Nib(row[4]), 44) && Nibbled(w, Nib(row[5]), 40) && Nibbled(w, Nib(row[6]), 36) && Nibbled(w, Nib(row[7]), 32)
    ensures Nibbled(w, Nib(row[8]), 28) && Nibbled(w, Nib(row[9]), 24) && Nibbled(w, Nib(row[10]), 20) && Nibbled(w, Nib(row[11]), 16)
    ensures Nibbled(w, Nib(row[12]), 12) && Nibbled(w, Nib(row[13]), 8) && Nibbled(w, Nib(row[14]), 4) && Nibbled(w, Nib(row[15]), 0)
  {
    hide Bit, Nib, Nibbled;
    Fours(w);
  }

  lemma NibbleAt(row: seq<Nibble>, w: Word, i: nat, j: nat)
    requires RowIs(row, w) && i < 16 && j < 4
    ensures NibbleBits(row[i])[j] <==> Bit(w, 63 - 4 * i - j)
  {
    hide Bit, Nib, NibbleBits, RowIs;
    assert |row| == 16 by { RowLength(row, w); }
    assert Nibbled(w, Nib(row[i]), 60 - 4 * i) by {
      hide Nibbled;
      Digits16(row, w);
    }
    NibOf(row[i]);
  }

  lemma RowLength(row: seq<Nibble>, w: Word)
    requires RowIs(row, w)
    ensures |row| == 16
  {
  }

  /** A word and its eight bytes, given the digits. */
  lemma BytesOf(d: seq<byte>, row: seq<Nibble>, w: Word)
    requires |d| == 8 && |row| == 16 && RowIs(row, w)
    requires forall i :: 0 <= i < 8 ==> d[i] / 16 == row[2 * i] && d[i] % 16 == row[2 * i + 1]
    ensures BytesBits(d) == Of(w, 64)
  {
    hide Bit, BytesBits, RowIs, NibbleBits;
    forall k | 0 <= k < 64 ensures BytesBits(d)[k] == Of(w, 64)[k] {
      var (i, j) := (k / 8, k % 8);
      BytesAt(d, i, j);
      if j < 4 {
        NibbleAt(row, w, 2 * i, j);
      } else {
        NibbleAt(row, w, 2 * i + 1, j - 4);
      }
    }
  }

  lemma KeyBytes()
    ensures BytesBits([0x0E, 0x86, 0xCE, 0xCE, 0xEE, 0xF6, 0x4E, 0x26]) == Of(0x0E86CECEEEF64E26, 64)
  {
    hide BytesBits, Of;
    BytesOf([0x0E, 0x86, 0xCE, 0xCE, 0xEE, 0xF6, 0x4E, 0x26], [0, 14, 8, 6, 12, 14, 12, 14, 14, 14, 15, 6, 4, 14, 2, 6], 0x0E86CECEEEF64E26);
  }

  lemma ZeroBytes()
    ensures BytesBits([0, 0, 0, 0, 0, 0, 0, 0]) == Of(0x0000000000000000, 64)
  {
    hide BytesBits, Of;
    BytesOf([0, 0, 0, 0, 0, 0, 0, 0], [0, 0, 0, 0, 0, 0, 0, 0, 0, 0, 0, 0, 0, 0, 0, 0], 0x0000000000000000);
  }

  lemma AnswerBytes()
    ensures BytesBits([0xFF, 0x97, 0x50, 0x2E, 0x94, 0x22, 0xF0, 0x89]) == Of(0xFF97502E9422F089, 64)
  {
    hide BytesBits, Of;
    BytesOf([0xFF, 0x97, 0x50, 0x2E, 0x94, 0x22, 0xF0, 0x89], [15, 15, 9, 7, 5, 0, 2, 14, 9, 4, 2, 2, 15, 0, 8, 9], 0xFF97502E9422F089);
  }

  /** The lower four of eight bits turned round. */
  lemma RevFour(x: nat, e: nat, f: nat, g: nat, h: nat)
    requires e < 2 && f < 2 && g < 2 && h < 2
    ensures Rev(8, 16 * x + 8 * e + 4 * f + 2 * g + h) == 128 * h + 64 * g + 32 * f + 16 * e + Rev(4, x)
  {
    hide Rev, Pow2;
    Pow2Values();
    RevStep(7, 8 * x + 4 * e + 2 * f + g, h);
    RevStep(6, 4 * x + 2 * e + f, g);
    RevStep(5, 2 * x + e, f);
    RevStep(4, x, e);
  }

  lemma KeyDigits()
    ensures Rev(4, 6) == 6 && Rev(4, 7) == 14
  {
    assert Rev(2, 1) == 2;
  }

  lemma KeyBits()
    ensures Rev(8, 112) == 0x0E && Rev(8, 97) == 0x86 && Rev(8, 115) == 0xCE && Rev(8, 119) == 0xEE
    ensures Rev(8, 111) == 0xF6 && Rev(8, 114) == 0x4E && Rev(8, 100) == 0x26
  {
    hide Rev;
    KeyDigits();
    RevFour(7, 0, 0, 0, 0);
    RevFour(6, 0, 0, 0, 1);
    RevFour(7, 0, 0, 1, 1);
    RevFour(7, 0, 1, 1, 1);
    RevFour(6, 1, 1, 1, 1);
    RevFour(7, 0, 0, 1, 0);
    RevFour(6, 0, 1, 0, 0);
  }

  /** The key of "password": the bits of each byte turned round. */
  lemma PasswordKey()
    ensures Key([112, 97, 115, 115, 119, 111, 114, 100]) == [0x0E, 0x86, 0xCE, 0xCE, 0xEE, 0xF6, 0x4E, 0x26]
  {
    hide Rev;
    KeyBits();
    var p := [112, 97, 115, 115, 119, 111, 114, 100];
    assert Code(p, 0) == 112 && Code(p, 1) == 97 && Code(p, 2) == Code(p, 3) == 115 && Code(p, 4) == 119;
    assert Code(p, 5) == 111 && Code(p, 6) == 114 && Code(p, 7) == 100;
  }

  /** What a client with the password "password" answers to sixteen zero bytes. */
  lemma PasswordAnswer()
    ensures ResponseBits([112, 97, 115, 115, 119, 111, 114, 100], seq(16, _ => 0))
            == BytesBits([0xFF, 0x97, 0x50, 0x2E, 0x94, 0x22, 0xF0, 0x89, 0xFF, 0x97, 0x50, 0x2E, 0x94, 0x22, 0xF0, 0x89])
  {
    hide BytesBits, Key, Encrypt, Of;
    var zeros: seq<byte> := [0, 0, 0, 0, 0, 0, 0, 0];
    var half := [0xFF, 0x97, 0x50, 0x2E, 0x94, 0x22, 0xF0, 0x89];
    PasswordKey();
    KeyBytes();
    ZeroBytes();
    AnswerBytes();
    Answer16();
    assert seq(16, _ => 0)[..8] == zeros && seq(16, _ => 0)[8..] == zeros;
    BytesConcat(half, half);
    assert half + half == [0xFF, 0x97, 0x50, 0x2E, 0x94, 0x22, 0xF0, 0x89, 0xFF, 0x97, 0x50, 0x2E, 0x94, 0x22, 0xF0, 0x89];
  }
}
