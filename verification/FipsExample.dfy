/** The example of the standard (FIPS 180-2, appendix B.1): the message "abc", followed word by word. */
module FipsExample {
  import opened Fips180

  const ABC: seq<Byte> := [0x61, 0x62, 0x63]

  /** The schedule words of the one block of the padded message. */
  function Schedule(t: nat): Word
    requires t < 64
  {
    match t
    case 0 => 0x61626380 case 1 => 0x00000000 case 2 => 0x00000000 case 3 => 0x00000000 case 4 => 0x00000000
    case 5 => 0x00000000 case 6 => 0x00000000 case 7 => 0x00000000 case 8 => 0x00000000 case 9 => 0x00000000
    case 10 => 0x00000000 case 11 => 0x00000000 case 12 => 0x00000000 case 13 => 0x00000000 case 14 => 0x00000000
    case 15 => 0x00000018 case 16 => 0x61626380 case 17 => 0x000f0000 case 18 => 0x7da86405 case 19 => 0x600003c6
    case 20 => 0x3e9d7b78 case 21 => 0x0183fc00 case 22 => 0x12dcbfdb case 23 => 0xe2e2c38e case 24 => 0xc8215c1a
    case 25 => 0xb73679a2 case 26 => 0xe5bc3909 case 27 => 0x32663c5b case 28 => 0x9d209d67 case 29 => 0xec8726cb
    case 30 => 0x702138a4 case 31 => 0xd3b7973b case 32 => 0x93f5997f case 33 => 0x3b68ba73 case 34 => 0xaff4ffc1
    case 35 => 0xf10a5c62 case 36 => 0x0a8b3996 case 37 => 0x72af830a case 38 => 0x9409e33e case 39 => 0x24641522
    case 40 => 0x9f47bf94 case 41 => 0xf0a64f5a case 42 => 0x3e246a79 case 43 => 0x27333ba3 case 44 => 0x0c4763f2
    case 45 => 0x840abf27 case 46 => 0x7a290d5d case 47 => 0x065c43da case 48 => 0xfb3e89cb case 49 => 0xcc7617db
    case 50 => 0xb9e66c34 case 51 => 0xa9993667 case 52 => 0x84badedd case 53 => 0xc21462bc case 54 => 0x1487472c
    case 55 => 0xb20f7a99 case 56 => 0xef57b9cd case 57 => 0xebe6b238 case 58 => 0x9fe3095e case 59 => 0x78bc8d4b
    case 60 => 0xa43fcf15 case 61 => 0x668b2ff8 case 62 => 0xeeaba2cc case _ => 0x12b1edeb
  }

  /** The working variable a after t - 3 rounds; before that, the initial d, c and b. */
  function VariableA(t: nat): Word
    requires t < 68
  {
    match t
    case 0 => 0xa54ff53a case 1 => 0x3c6ef372 case 2 => 0xbb67ae85 case 3 => 0x6a09e667 case 4 => 0x5d6aebcd
    case 5 => 0x5a6ad9ad case 6 => 0xc8c347a7 case 7 => 0xd550f666 case 8 => 0x04409a6a case 9 => 0x2b4209f5
    case 10 => 0xe5030380 case 11 => 0x85a07b5f case 12 => 0x8e04ecb9 case 13 => 0x8c87346b case 14 => 0x4798a3f4
    case 15 => 0xf71fc5a9 case 16 => 0x87912990 case 17 => 0xd932eb16 case 18 => 0xc0645fde case 19 => 0xb0fa238e
    case 20 => 0x21da9a9b case 21 => 0xc2fbd9d1 case 22 => 0xfe777bbf case 23 => 0xe1f20c33 case 24 => 0x9dc68b63
    case 25 => 0xc2606d6d case 26 => 0xa7a3623f case 27 => 0xc5d53d8d case 28 => 0x1c2c2838 case 29 => 0xcde8037d
    case 30 => 0xb62ec4bc case 31 => 0x77d37528 case 32 => 0x363482c9 case 33 => 0xa0060b30 case 34 => 0xea992a22
    case 35 => 0x73b33bf5 case 36 => 0x98e12507 case 37 => 0xfe604df5 case 38 => 0xa9a7738c case 39 => 0x65a0cfe4
    case 40 => 0x41a65cb1 case 41 => 0x34df1604 case 42 => 0x6dc57a8a case 43 => 0x79ea687a case 44 => 0xd6670766
    case 45 => 0xdf46652f case 46 => 0x17aa0dfe case 47 => 0x9d4baf93 case 48 => 0x26628815 case 49 => 0x72ab4b91
    case 50 => 0xa14c14b0 case 51 => 0x4172328d case 52 => 0x05757ceb case 53 => 0xf11bfaa8 case 54 => 0x7a0508a1
    case 55 => 0x886e7a22 case 56 => 0x101fd28f case 57 => 0xf5702fdb case 58 => 0x3ec45cdb case 59 => 0x38cc9913
    case 60 => 0xfcd1887b case 61 => 0xc062d46f case 62 => 0xffb70472 case 63 => 0xb6ae8fff case 64 => 0xb85e2ce9
    case 65 => 0x04d24d6c case 66 => 0xd39a2165 case _ => 0x506e3058
  }

  /** The working variable e after t - 3 rounds; before that, the initial h, g and f. */
  function VariableE(t: nat): Word
    requires t < 68
  {
    match t
    case 0 => 0x5be0cd19 case 1 => 0x1f83d9ab case 2 => 0x9b05688c case 3 => 0x510e527f case 4 => 0xfa2a4622
    case 5 => 0x78ce7989 case 6 => 0xf92939eb case 7 => 0x24e00850 case 8 => 0x43ada245 case 9 => 0x714260ad
    case 10 => 0x9b27a401 case 11 => 0x0c657a79 case 12 => 0x32ca2d8c case 13 => 0x1cc92596 case 14 => 0x436b23e8
    case 15 => 0x816fd6e9 case 16 => 0x1e578218 case 17 => 0x745a48de case 18 => 0x0b92f20c case 19 => 0x07590dcd
    case 20 => 0x8034229c case 21 => 0x846ee454 case 22 => 0xcc899961 case 23 => 0xb0638179 case 24 => 0x8ada8930
    case 25 => 0xe1257970 case 26 => 0x49f5114a case 27 => 0xaa47c347 case 28 => 0x2823ef91 case 29 => 0x14383d8e
    case 30 => 0xc74c6516 case 31 => 0xedffbff8 case 32 => 0x6112a3b7 case 33 => 0xade79437 case 34 => 0x0109ab3a
    case 35 => 0xba591112 case 36 => 0x9cd9f5f6 case 37 => 0x59249dd3 case 38 => 0x085f3833 case 39 => 0xf4b002d6
    case 40 => 0x0772a26b case 41 => 0xa507a53d case 42 => 0xf0781bc8 case 43 => 0x1efbc0a0 case 44 => 0x26352d63
    case 45 => 0x838b2711 case 46 => 0xdecd4715 case 47 => 0xfda24c2e case 48 => 0xa80f11f0 case 49 => 0xb7755da1
    case 50 => 0xd57b94a9 case 51 => 0xfecf0bc6 case 52 => 0xbd714038 case 53 => 0x6e5c390c case 54 => 0x52f1ccf7
    case 55 => 0x49231c1e case 56 => 0x529e7d00 case 57 => 0x9f4787c3 case 58 => 0xe50e1b4f case 59 => 0x54cb266b
    case 60 => 0x9b5e906c case 61 => 0x7e44008e case 62 => 0x6d83bfc6 case 63 => 0xb21bad3d case 64 => 0x961f4894
    case 65 => 0x948d25b6 case 66 => 0xfb121210 case _ => 0x5ef50f24
  }

  function State(t: nat): Regs
    requires t <= 64
  {
    Regs(VariableA(t + 3), VariableA(t + 2), VariableA(t + 1), VariableA(t),
         VariableE(t + 3), VariableE(t + 2), VariableE(t + 1), VariableE(t))
  }

  lemma FirstRounds(t: nat)
    requires 0 <= t < 8
    ensures Round(State(t), K(t), Schedule(t)) == State(t + 1)
  {
    match t case 0 => case 1 => case 2 => case 3 => case 4 => case 5 => case 6 => case _ =>
  }

  lemma SecondRounds(t: nat)
    requires 8 <= t < 16
    ensures Round(State(t), K(t), Schedule(t)) == State(t + 1)
  {
    match t case 8 => case 9 => case 10 => case 11 => case 12 => case 13 => case 14 => case _ =>
  }

  lemma ThirdRounds(t: nat)
    requires 16 <= t < 24
    ensures Schedule(t) == Add4(SmallSigma1(Schedule(t - 2)), Schedule(t - 7), SmallSigma0(Schedule(t - 15)),
                                Schedule(t - 16))
    ensures Round(State(t), K(t), Schedule(t)) == State(t + 1)
  {
    match t case 16 => case 17 => case 18 => case 19 => case 20 => case 21 => case 22 => case _ =>
  }

  lemma FourthRounds(t: nat)
    requires 24 <= t < 32
    ensures Schedule(t) == Add4(SmallSigma1(Schedule(t - 2)), Schedule(t - 7), SmallSigma0(Schedule(t - 15)),
                                Schedule(t - 16))
    ensures Round(State(t), K(t), Schedule(t)) == State(t + 1)
  {
    match t case 24 => case 25 => case 26 => case 27 => case 28 => case 29 => case 30 => case _ =>
  }

  lemma FifthRounds(t: nat)
    requires 32 <= t < 40
    ensures Schedule(t) == Add4(SmallSigma1(Schedule(t - 2)), Schedule(t - 7), SmallSigma0(Schedule(t - 15)),
                                Schedule(t - 16))
    ensures Round(State(t), K(t), Schedule(t)) == State(t + 1)
  {
    match t case 32 => case 33 => case 34 => case 35 => case 36 => case 37 => case 38 => case _ =>
  }

  lemma SixthRounds(t: nat)
    requires 40 <= t < 48
    ensures Schedule(t) == Add4(SmallSigma1(Schedule(t - 2)), Schedule(t - 7), SmallSigma0(Schedule(t - 15)),
                                Schedule(t - 16))
    ensures Round(State(t), K(t), Schedule(t)) == State(t + 1)
  {
    match t case 40 => case 41 => case 42 => case 43 => case 44 => case 45 => case 46 => case _ =>
  }

  lemma SeventhRounds(t: nat)
    requires 48 <= t < 56
    ensures Schedule(t) == Add4(SmallSigma1(Schedule(t - 2)), Schedule(t - 7), SmallSigma0(Schedule(t - 15)),
                                Schedule(t - 16))
    ensures Round(State(t), K(t), Schedule(t)) == State(t + 1)
  {
    match t case 48 => case 49 => case 50 => case 51 => case 52 => case 53 => case 54 => case _ =>
  }

  lemma EighthRounds(t: nat)
    requires 56 <= t < 64
    ensures Schedule(t) == Add4(SmallSigma1(Schedule(t - 2)), Schedule(t - 7), SmallSigma0(Schedule(t - 15)),
                                Schedule(t - 16))
    ensures Round(State(t), K(t), Schedule(t)) == State(t + 1)
  {
    match t case 56 => case 57 => case 58 => case 59 => case 60 => case 61 => case 62 => case _ =>
  }

  // ---------- The padded message ----------

  lemma {:induction false} ZeroBytes(k: nat)
    ensures BigEndian(0, k) == Zeros(k)
  {
    if k > 0 {
      ZeroBytes(k - 1);
      assert ByteOf(0) == 0;
    }
  }

  /** The block: the message, the marker, zeros, and the length of 24 bits. */
  lemma PaddedMessage()
    ensures Pad(ABC) == ABC + [0x80] + Zeros(59) + [24]
  {
    ZeroBytes(7);
    assert ByteOf(24) == 24;
    assert BigEndian(24, 8) == Zeros(7) + [24];
    assert Zeros(52) + Zeros(7) == Zeros(59);
  }

  lemma FirstWords(t: nat)
    requires t < 16
    ensures |Pad(ABC)| == 64 && W(Pad(ABC), t) == Schedule(t)
  {
    PaddedMessage();
    var block := Pad(ABC);
    assert block[0] == 0x61 && block[1] == 0x62 && block[2] == 0x63 && block[3] == 0x80 && block[63] == 24;
    assert forall k :: 4 <= k < 63 ==> block[k] == 0;
    PackedWords();
    hide Pad;
    match t
    case 0 => case 15 => case _ => assert Schedule(t) == 0;
  }

  lemma PackedWords()
    ensures Pack(0x61, 0x62, 0x63, 0x80) == 0x61626380 && Pack(0, 0, 0, 0) == 0 && Pack(0, 0, 0, 24) == 24
  {}

  lemma RoundIs(t: nat)
    requires t < 64
    ensures Round(State(t), K(t), Schedule(t)) == State(t + 1)
    ensures t >= 16 ==>
              Schedule(t) == Add4(SmallSigma1(Schedule(t - 2)), Schedule(t - 7), SmallSigma0(Schedule(t - 15)),
                                  Schedule(t - 16))
  {
    hide Round, State, K, Schedule;
    if t < 8 { FirstRounds(t); }
    else if t < 16 { SecondRounds(t); }
    else if t < 24 { ThirdRounds(t); }
    else if t < 32 { FourthRounds(t); }
    else if t < 40 { FifthRounds(t); }
    else if t < 48 { SixthRounds(t); }
    else if t < 56 { SeventhRounds(t); }
    else { EighthRounds(t); }
  }

  lemma {:induction false} ScheduleIs(t: nat)
    requires t < 64
    ensures |Pad(ABC)| == 64 && W(Pad(ABC), t) == Schedule(t)
  {
    hide Pad, Round, State, K, Schedule, Pack, SmallSigma0, SmallSigma1;
    if t < 16 {
      FirstWords(t);
    } else {
      ScheduleIs(t - 2);
      ScheduleIs(t - 7);
      ScheduleIs(t - 15);
      ScheduleIs(t - 16);
      RoundIs(t);
    }
  }

  lemma {:induction false} StateIs(t: nat)
    requires t <= 64
    ensures |Pad(ABC)| == 64 && Rounds(H0(), Pad(ABC), t) == State(t)
  {
    hide Pad, Round, State, K, Schedule, W, H0;
    if t == 0 {
      FirstWords(0);
      InitialState();
    } else {
      StateIs(t - 1);
      ScheduleIs(t - 1);
      RoundIs(t - 1);
    }
  }

  lemma InitialState()
    ensures H0() == State(0)
  {}

  lemma LastVariables()
    ensures VariableA(67) == 0x506e3058 && VariableA(66) == 0xd39a2165
    ensures VariableA(65) == 0x04d24d6c && VariableA(64) == 0xb85e2ce9
  {}

  lemma LastOtherVariables()
    ensures VariableE(67) == 0x5ef50f24 && VariableE(66) == 0xfb121210
    ensures VariableE(65) == 0x948d25b6 && VariableE(64) == 0x961f4894
  {}

  lemma FinalState()
    ensures State(64) == Regs(0x506e3058, 0xd39a2165, 0x04d24d6c, 0xb85e2ce9,
                                 0x5ef50f24, 0xfb121210, 0x948d25b6, 0x961f4894)
  {
    hide VariableA, VariableE;
    LastVariables();
    LastOtherVariables();
  }

  lemma FinalSum()
    ensures AddRegs(H0(), Regs(0x506e3058, 0xd39a2165, 0x04d24d6c, 0xb85e2ce9,
                                 0x5ef50f24, 0xfb121210, 0x948d25b6, 0x961f4894)) ==
            Regs(0xba7816bf, 0x8f01cfea, 0x414140de, 0x5dae2223,
                 0xb00361a3, 0x96177a9c, 0xb410ff61, 0xf20015ad)
  {}

  /** The digest the standard gives for this message. */
  lemma ExampleDigest()
    ensures Sha256(ABC) ==
            [0xba, 0x78, 0x16, 0xbf, 0x8f, 0x01, 0xcf, 0xea, 0x41, 0x41, 0x40, 0xde, 0x5d, 0xae, 0x22, 0x23,
             0xb0, 0x03, 0x61, 0xa3, 0x96, 0x17, 0x7a, 0x9c, 0xb4, 0x10, 0xff, 0x61, 0xf2, 0x00, 0x15, 0xad]
  {
    hide Pad, Rounds, H0, State;
    StateIs(64);
    FinalState();
    FinalSum();
    OneBlock(Pad(ABC));
  }

  lemma OneBlock(m: seq<Byte>)
    requires |m| == 64
    ensures HashBlocks(m) == AddRegs(H0(), Rounds(H0(), m, 64))
  {
    hide Rounds, H0;
    assert m[..0] == [] && m[0..] == m;
  }
}
