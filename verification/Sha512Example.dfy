/** The worked example for SHA-512, the three-byte message "abc", from the padded block to the
    digest that FIPS 180-4 gives for it. */
module Sha512Example {
  import opened Words
  import opened Sha512Spec
  import opened Sha512Constants

  const MESSAGE: seq<Byte> := [0x61, 0x62, 0x63]

  /** The padded message: its bytes, the one bit, and its length of 24 bits. */
  const BLOCK: seq<Word64> := [
    0x6162638000000000, 0x0000000000000000, 0x0000000000000000, 0x0000000000000000,
    0x0000000000000000, 0x0000000000000000, 0x0000000000000000, 0x0000000000000000,
    0x0000000000000000, 0x0000000000000000, 0x0000000000000000, 0x0000000000000000,
    0x0000000000000000, 0x0000000000000000, 0x0000000000000000, 0x0000000000000018
  ]

  const DIGEST: seq<Byte> :=
    [0xdd, 0xaf, 0x35, 0xa1, 0x93, 0x61, 0x7a, 0xba]
    + [0xcc, 0x41, 0x73, 0x49, 0xae, 0x20, 0x41, 0x31]
    + [0x12, 0xe6, 0xfa, 0x4e, 0x89, 0xa9, 0x7e, 0xa2]
    + [0x0a, 0x9e, 0xee, 0xe6, 0x4b, 0x55, 0xd3, 0x9a]
    + [0x21, 0x92, 0x99, 0x2a, 0x27, 0x4f, 0xc1, 0xa8]
    + [0x36, 0xba, 0x3c, 0x23, 0xa3, 0xfe, 0xeb, 0xbd]
    + [0x45, 0x4d, 0x44, 0x23, 0x64, 0x3c, 0xe8, 0x0e]
    + [0x2a, 0x9a, 0xc9, 0x4f, 0xa5, 0x4c, 0xa4, 0x9f]

  // ---------------------------------------------------------------- the padded block

  lemma Padded()
    ensures |Pad(MESSAGE)| == 128 && BlockOf(Pad(MESSAGE)) == BLOCK
  {
    hide Big, BigBytes, LengthField, ToWord, Zeros;
    var s := Pad(MESSAGE);
    LengthBytes();
    assert |s| == 128 && s[0] == 0x61 && s[1] == 0x62 && s[2] == 0x63 && s[3] == 0x80 && s[127] == 24;
    assert forall i :: 4 <= i < 127 ==> s[i] == 0;
    KnownWords();
    forall i | 0 <= i < 16 ensures BlockOf(s)[i] == BLOCK[i] {
      assert BlockOf(s)[i] == BigAt(s, 8 * i);
    }
  }

  lemma LengthBytes()
    ensures var l := LengthField(8 * 3); l[15] == 24 && forall i :: 0 <= i < 15 ==> l[i] == 0
  {
    assert ToWord(24) == 24 && ToWord(0) == 0;
    assert BigBytes(24) == [0, 0, 0, 0, 0, 0, 0, 24] && BigBytes(0) == [0, 0, 0, 0, 0, 0, 0, 0];
  }

  lemma KnownWords()
    ensures Big(0x61, 0x62, 0x63, 0x80, 0, 0, 0, 0) == 0x6162638000000000
    ensures Big(0, 0, 0, 0, 0, 0, 0, 24) == 24
    ensures Big(0, 0, 0, 0, 0, 0, 0, 0) == 0
  {
  }

  // ---------------------------------------------------------------- the schedule

  lemma BlockLength()
    ensures |BLOCK| == 16
  {
  }

  /** The next word from the words 2, 7, 15 and 16 before it. */
  predicate Extends(w2: Word64, w7: Word64, w15: Word64, w16: Word64, w: Word64) {
    Plus(Expanded(w2, w7, w15), w16) == w
  }

  lemma NextWord(b: seq<Word64>, t: nat, w: Word64)
    requires |b| == 16 && t >= 16
    requires Extends(Schedule(b, t - 2), Schedule(b, t - 7), Schedule(b, t - 15), Schedule(b, t - 16), w)
    ensures Schedule(b, t) == w
  {
    hide Plus, Expanded, Schedule;
    ScheduleStep(b, t);
  }

  /** Sixteen consecutive words of the schedule, from t on. */
  ghost predicate Window(b: seq<Word64>, t: nat, w0: Word64, w1: Word64, w2: Word64, w3: Word64,
                         w4: Word64, w5: Word64, w6: Word64, w7: Word64,
                         w8: Word64, w9: Word64, w10: Word64, w11: Word64,
                         w12: Word64, w13: Word64, w14: Word64, w15: Word64)
    requires |b| == 16
  {
    Schedule(b, t) == w0 && Schedule(b, t + 1) == w1 && Schedule(b, t + 2) == w2 && Schedule(b, t + 3) == w3
    && Schedule(b, t + 4) == w4 && Schedule(b, t + 5) == w5 && Schedule(b, t + 6) == w6 && Schedule(b, t + 7) == w7
    && Schedule(b, t + 8) == w8 && Schedule(b, t + 9) == w9 && Schedule(b, t + 10) == w10 && Schedule(b, t + 11) == w11
    && Schedule(b, t + 12) == w12 && Schedule(b, t + 13) == w13
    && Schedule(b, t + 14) == w14 && Schedule(b, t + 15) == w15
  }

  lemma Words0(b: seq<Word64>)
    requires b == BLOCK
    ensures Window(b, 0,
                    0x6162638000000000, 0x0000000000000000, 0x0000000000000000, 0x0000000000000000,
                    0x0000000000000000, 0x0000000000000000, 0x0000000000000000, 0x0000000000000000,
                    0x0000000000000000, 0x0000000000000000, 0x0000000000000000, 0x0000000000000000,
                    0x0000000000000000, 0x0000000000000000, 0x0000000000000000, 0x0000000000000018)
  {
    hide Schedule;
    FirstSchedule(b, 0); FirstSchedule(b, 1); FirstSchedule(b, 2); FirstSchedule(b, 3);
    FirstSchedule(b, 4); FirstSchedule(b, 5); FirstSchedule(b, 6); FirstSchedule(b, 7);
    FirstSchedule(b, 8); FirstSchedule(b, 9); FirstSchedule(b, 10); FirstSchedule(b, 11);
    FirstSchedule(b, 12); FirstSchedule(b, 13); FirstSchedule(b, 14); FirstSchedule(b, 15);
  }

  lemma Sums16()
    ensures Extends(0x0000000000000000, 0x0000000000000000, 0x0000000000000000, 0x6162638000000000, 0x6162638000000000)
    ensures Extends(0x0000000000000018, 0x0000000000000000, 0x0000000000000000, 0x0000000000000000, 0x00030000000000c0)
    ensures Extends(0x6162638000000000, 0x0000000000000000, 0x0000000000000000, 0x0000000000000000, 0x0a9699a24c700003)
    ensures Extends(0x00030000000000c0, 0x0000000000000000, 0x0000000000000000, 0x0000000000000000, 0x00000c0060000603)
    ensures Extends(0x0a9699a24c700003, 0x0000000000000000, 0x0000000000000000, 0x0000000000000000, 0x549ef62639858996)
    ensures Extends(0x00000c0060000603, 0x0000000000000000, 0x0000000000000000, 0x0000000000000000, 0x00c0003300003c00)
    ensures Extends(0x549ef62639858996, 0x0000000000000018, 0x0000000000000000, 0x0000000000000000, 0x1497007a8a0e9dbc)
    ensures Extends(0x00c0003300003c00, 0x6162638000000000, 0x0000000000000000, 0x0000000000000000, 0x62e56500cc0780f0)
  {
  }

  lemma Sums24()
    ensures Extends(0x1497007a8a0e9dbc, 0x00030000000000c0, 0x0000000000000000, 0x0000000000000000, 0x7760dd475a538797)
    ensures Extends(0x62e56500cc0780f0, 0x0a9699a24c700003, 0x0000000000000000, 0x0000000000000000, 0xf1554b711c1c0003)
    ensures Extends(0x7760dd475a538797, 0x00000c0060000603, 0x0000000000000000, 0x0000000000000000, 0xca2993a4345d9ff2)
    ensures Extends(0xf1554b711c1c0003, 0x549ef62639858996, 0x0000000000000000, 0x0000000000000000, 0x5e0e66b5c783dd32)
    ensures Extends(0xca2993a4345d9ff2, 0x00c0003300003c00, 0x0000000000000000, 0x0000000000000000, 0xe25a625d00494b62)
    ensures Extends(0x5e0e66b5c783dd32, 0x1497007a8a0e9dbc, 0x0000000000000000, 0x0000000000000000, 0x9f44486fb1e4fbd2)
    ensures Extends(0xe25a625d00494b62, 0x62e56500cc0780f0, 0x0000000000000018, 0x0000000000000000, 0xb31b8c2b06085f2f)
    ensures Extends(0x9f44486fb1e4fbd2, 0x7760dd475a538797, 0x6162638000000000, 0x0000000000000018, 0x0e987660934142f6)
  {
  }

  lemma Words16(b: seq<Word64>, t: nat)
    requires |b| == 16
    requires Window(b, t,
                    0x6162638000000000, 0x0000000000000000, 0x0000000000000000, 0x0000000000000000,
                    0x0000000000000000, 0x0000000000000000, 0x0000000000000000, 0x0000000000000000,
                    0x0000000000000000, 0x0000000000000000, 0x0000000000000000, 0x0000000000000000,
                    0x0000000000000000, 0x0000000000000000, 0x0000000000000000, 0x0000000000000018)
    ensures Window(b, t + 16,
                    0x6162638000000000, 0x00030000000000c0, 0x0a9699a24c700003, 0x00000c0060000603,
                    0x549ef62639858996, 0x00c0003300003c00, 0x1497007a8a0e9dbc, 0x62e56500cc0780f0,
                    0x7760dd475a538797, 0xf1554b711c1c0003, 0xca2993a4345d9ff2, 0x5e0e66b5c783dd32,
                    0xe25a625d00494b62, 0x9f44486fb1e4fbd2, 0xb31b8c2b06085f2f, 0x0e987660934142f6)
  {
    hide Schedule, Extends;
    Sums16();
    Sums24();
    NextWord(b, t + 16, 0x6162638000000000); NextWord(b, t + 17, 0x00030000000000c0);
    NextWord(b, t + 18, 0x0a9699a24c700003); NextWord(b, t + 19, 0x00000c0060000603);
    NextWord(b, t + 20, 0x549ef62639858996); NextWord(b, t + 21, 0x00c0003300003c00);
    NextWord(b, t + 22, 0x1497007a8a0e9dbc); NextWord(b, t + 23, 0x62e56500cc0780f0);
    NextWord(b, t + 24, 0x7760dd475a538797); NextWord(b, t + 25, 0xf1554b711c1c0003);
    NextWord(b, t + 26, 0xca2993a4345d9ff2); NextWord(b, t + 27, 0x5e0e66b5c783dd32);
    NextWord(b, t + 28, 0xe25a625d00494b62); NextWord(b, t + 29, 0x9f44486fb1e4fbd2);
    NextWord(b, t + 30, 0xb31b8c2b06085f2f); NextWord(b, t + 31, 0x0e987660934142f6);
  }

  lemma Sums32()
    ensures Extends(0xb31b8c2b06085f2f, 0xf1554b711c1c0003, 0x00030000000000c0, 0x6162638000000000, 0xa4af2cfd09fbb924)
    ensures Extends(0x0e987660934142f6, 0xca2993a4345d9ff2, 0x0a9699a24c700003, 0x00030000000000c0, 0xad289e2e0bd53186)
    ensures Extends(0xa4af2cfd09fbb924, 0x5e0e66b5c783dd32, 0x00000c0060000603, 0x0a9699a24c700003, 0x3c74563aa2f9673e)
    ensures Extends(0xad289e2e0bd53186, 0xe25a625d00494b62, 0x549ef62639858996, 0x00000c0060000603, 0x6ccdcd14cc14b53f)
    ensures Extends(0x3c74563aa2f9673e, 0x9f44486fb1e4fbd2, 0x00c0003300003c00, 0x549ef62639858996, 0xc3f925b337f22bde)
    ensures Extends(0x6ccdcd14cc14b53f, 0xb31b8c2b06085f2f, 0x1497007a8a0e9dbc, 0x00c0003300003c00, 0x5bcc77a75ad95b54)
    ensures Extends(0xc3f925b337f22bde, 0x0e987660934142f6, 0x62e56500cc0780f0, 0x1497007a8a0e9dbc, 0x3ec2257adca09a52)
    ensures Extends(0x5bcc77a75ad95b54, 0xa4af2cfd09fbb924, 0x7760dd475a538797, 0x62e56500cc0780f0, 0x28246960001fc5eb)
  {
  }

  lemma Sums40()
    ensures Extends(0x3ec2257adca09a52, 0xad289e2e0bd53186, 0xf1554b711c1c0003, 0x7760dd475a538797, 0x04e33a75ce2be88a)
    ensures Extends(0x28246960001fc5eb, 0x3c74563aa2f9673e, 0xca2993a4345d9ff2, 0xf1554b711c1c0003, 0x7d5314b3c359e0e7)
    ensures Extends(0x04e33a75ce2be88a, 0x6ccdcd14cc14b53f, 0x5e0e66b5c783dd32, 0xca2993a4345d9ff2, 0xaef7a285ff251266)
    ensures Extends(0x7d5314b3c359e0e7, 0xc3f925b337f22bde, 0xe25a625d00494b62, 0x5e0e66b5c783dd32, 0x0b8472581deea04f)
    ensures Extends(0xaef7a285ff251266, 0x5bcc77a75ad95b54, 0x9f44486fb1e4fbd2, 0xe25a625d00494b62, 0xb174e26eddc7b033)
    ensures Extends(0x0b8472581deea04f, 0x3ec2257adca09a52, 0xb31b8c2b06085f2f, 0x9f44486fb1e4fbd2, 0x5d63bae58ddd88de)
    ensures Extends(0xb174e26eddc7b033, 0x28246960001fc5eb, 0x0e987660934142f6, 0xb31b8c2b06085f2f, 0x4c044007b744ccbb)
    ensures Extends(0x5d63bae58ddd88de, 0x04e33a75ce2be88a, 0xa4af2cfd09fbb924, 0x0e987660934142f6, 0xe6a9aa4d74dc7d43)
  {
  }

  lemma Words32(b: seq<Word64>, t: nat)
    requires |b| == 16
    requires Window(b, t,
                    0x6162638000000000, 0x00030000000000c0, 0x0a9699a24c700003, 0x00000c0060000603,
                    0x549ef62639858996, 0x00c0003300003c00, 0x1497007a8a0e9dbc, 0x62e56500cc0780f0,
                    0x7760dd475a538797, 0xf1554b711c1c0003, 0xca2993a4345d9ff2, 0x5e0e66b5c783dd32,
                    0xe25a625d00494b62, 0x9f44486fb1e4fbd2, 0xb31b8c2b06085f2f, 0x0e987660934142f6)
    ensures Window(b, t + 16,
                    0xa4af2cfd09fbb924, 0xad289e2e0bd53186, 0x3c74563aa2f9673e, 0x6ccdcd14cc14b53f,
                    0xc3f925b337f22bde, 0x5bcc77a75ad95b54, 0x3ec2257adca09a52, 0x28246960001fc5eb,
                    0x04e33a75ce2be88a, 0x7d5314b3c359e0e7, 0xaef7a285ff251266, 0x0b8472581deea04f,
                    0xb174e26eddc7b033, 0x5d63bae58ddd88de, 0x4c044007b744ccbb, 0xe6a9aa4d74dc7d43)
  {
    hide Schedule, Extends;
    Sums32();
    Sums40();
    NextWord(b, t + 16, 0xa4af2cfd09fbb924); NextWord(b, t + 17, 0xad289e2e0bd53186);
    NextWord(b, t + 18, 0x3c74563aa2f9673e); NextWord(b, t + 19, 0x6ccdcd14cc14b53f);
    NextWord(b, t + 20, 0xc3f925b337f22bde); NextWord(b, t + 21, 0x5bcc77a75ad95b54);
    NextWord(b, t + 22, 0x3ec2257adca09a52); NextWord(b, t + 23, 0x28246960001fc5eb);
    NextWord(b, t + 24, 0x04e33a75ce2be88a); NextWord(b, t + 25, 0x7d5314b3c359e0e7);
    NextWord(b, t + 26, 0xaef7a285ff251266); NextWord(b, t + 27, 0x0b8472581deea04f);
    NextWord(b, t + 28, 0xb174e26eddc7b033); NextWord(b, t + 29, 0x5d63bae58ddd88de);
    NextWord(b, t + 30, 0x4c044007b744ccbb); NextWord(b, t + 31, 0xe6a9aa4d74dc7d43);
  }

  lemma Sums48()
    ensures Extends(0x4c044007b744ccbb, 0x7d5314b3c359e0e7, 0xad289e2e0bd53186, 0xa4af2cfd09fbb924, 0xebeaf1237248019c)
    ensures Extends(0xe6a9aa4d74dc7d43, 0xaef7a285ff251266, 0x3c74563aa2f9673e, 0xad289e2e0bd53186, 0x361e80b2d00f3193)
    ensures Extends(0xebeaf1237248019c, 0x0b8472581deea04f, 0x6ccdcd14cc14b53f, 0x3c74563aa2f9673e, 0x2e9839125df3b175)
    ensures Extends(0x361e80b2d00f3193, 0xb174e26eddc7b033, 0xc3f925b337f22bde, 0x6ccdcd14cc14b53f, 0x3319629293ad5363)
    ensures Extends(0x2e9839125df3b175, 0x5d63bae58ddd88de, 0x5bcc77a75ad95b54, 0xc3f925b337f22bde, 0x9cbc5d89ac1b89d5)
    ensures Extends(0x3319629293ad5363, 0x4c044007b744ccbb, 0x3ec2257adca09a52, 0x5bcc77a75ad95b54, 0x275e23ffeeca50b7)
    ensures Extends(0x9cbc5d89ac1b89d5, 0xe6a9aa4d74dc7d43, 0x28246960001fc5eb, 0x3ec2257adca09a52, 0x3b80d680bf69ef58)
    ensures Extends(0x275e23ffeeca50b7, 0xebeaf1237248019c, 0x04e33a75ce2be88a, 0x28246960001fc5eb, 0x0d0696933945a125)
  {
  }

  lemma Sums56()
    ensures Extends(0x3b80d680bf69ef58, 0x361e80b2d00f3193, 0x7d5314b3c359e0e7, 0x04e33a75ce2be88a, 0x7533eabcb786ff00)
    ensures Extends(0x0d0696933945a125, 0x2e9839125df3b175, 0xaef7a285ff251266, 0x7d5314b3c359e0e7, 0xb89826cee6fbf0e5)
    ensures Extends(0x7533eabcb786ff00, 0x3319629293ad5363, 0x0b8472581deea04f, 0xaef7a285ff251266, 0x249b4fbcad623e9f)
    ensures Extends(0xb89826cee6fbf0e5, 0x9cbc5d89ac1b89d5, 0xb174e26eddc7b033, 0x0b8472581deea04f, 0x4aea9df2b02d6f1e)
    ensures Extends(0x249b4fbcad623e9f, 0x275e23ffeeca50b7, 0x5d63bae58ddd88de, 0xb174e26eddc7b033, 0x2cc57475a55e8d8f)
    ensures Extends(0x4aea9df2b02d6f1e, 0x3b80d680bf69ef58, 0x4c044007b744ccbb, 0x5d63bae58ddd88de, 0xb2574ae938d8be89)
    ensures Extends(0x2cc57475a55e8d8f, 0x0d0696933945a125, 0xe6a9aa4d74dc7d43, 0x4c044007b744ccbb, 0xc1b35a57b16d6aea)
    ensures Extends(0xb2574ae938d8be89, 0x7533eabcb786ff00, 0xebeaf1237248019c, 0xe6a9aa4d74dc7d43, 0xcc4918b5949206bb)
  {
  }

  lemma Words48(b: seq<Word64>, t: nat)
    requires |b| == 16
    requires Window(b, t,
                    0xa4af2cfd09fbb924, 0xad289e2e0bd53186, 0x3c74563aa2f9673e, 0x6ccdcd14cc14b53f,
                    0xc3f925b337f22bde, 0x5bcc77a75ad95b54, 0x3ec2257adca09a52, 0x28246960001fc5eb,
                    0x04e33a75ce2be88a, 0x7d5314b3c359e0e7, 0xaef7a285ff251266, 0x0b8472581deea04f,
                    0xb174e26eddc7b033, 0x5d63bae58ddd88de, 0x4c044007b744ccbb, 0xe6a9aa4d74dc7d43)
    ensures Window(b, t + 16,
                    0xebeaf1237248019c, 0x361e80b2d00f3193, 0x2e9839125df3b175, 0x3319629293ad5363,
                    0x9cbc5d89ac1b89d5, 0x275e23ffeeca50b7, 0x3b80d680bf69ef58, 0x0d0696933945a125,
                    0x7533eabcb786ff00, 0xb89826cee6fbf0e5, 0x249b4fbcad623e9f, 0x4aea9df2b02d6f1e,
                    0x2cc57475a55e8d8f, 0xb2574ae938d8be89, 0xc1b35a57b16d6aea, 0xcc4918b5949206bb)
  {
    hide Schedule, Extends;
    Sums48();
    Sums56();
    NextWord(b, t + 16, 0xebeaf1237248019c); NextWord(b, t + 17, 0x361e80b2d00f3193);
    NextWord(b, t + 18, 0x2e9839125df3b175); NextWord(b, t + 19, 0x3319629293ad5363);
    NextWord(b, t + 20, 0x9cbc5d89ac1b89d5); NextWord(b, t + 21, 0x275e23ffeeca50b7);
    NextWord(b, t + 22, 0x3b80d680bf69ef58); NextWord(b, t + 23, 0x0d0696933945a125);
    NextWord(b, t + 24, 0x7533eabcb786ff00); NextWord(b, t + 25, 0xb89826cee6fbf0e5);
    NextWord(b, t + 26, 0x249b4fbcad623e9f); NextWord(b, t + 27, 0x4aea9df2b02d6f1e);
    NextWord(b, t + 28, 0x2cc57475a55e8d8f); NextWord(b, t + 29, 0xb2574ae938d8be89);
    NextWord(b, t + 30, 0xc1b35a57b16d6aea); NextWord(b, t + 31, 0xcc4918b5949206bb);
  }

  lemma Sums64()
    ensures Extends(0xc1b35a57b16d6aea, 0xb89826cee6fbf0e5, 0x361e80b2d00f3193, 0xebeaf1237248019c, 0x5099c3add79f90ec)
    ensures Extends(0xcc4918b5949206bb, 0x249b4fbcad623e9f, 0x2e9839125df3b175, 0x361e80b2d00f3193, 0x5ea81d78e7660bf1)
    ensures Extends(0x5099c3add79f90ec, 0x4aea9df2b02d6f1e, 0x3319629293ad5363, 0x2e9839125df3b175, 0xebee6267405ac2a9)
    ensures Extends(0x5ea81d78e7660bf1, 0x2cc57475a55e8d8f, 0x9cbc5d89ac1b89d5, 0x3319629293ad5363, 0xb01f21926108a4ab)
    ensures Extends(0xebee6267405ac2a9, 0xb2574ae938d8be89, 0x275e23ffeeca50b7, 0x9cbc5d89ac1b89d5, 0x786433dd2fe65556)
    ensures Extends(0xb01f21926108a4ab, 0xc1b35a57b16d6aea, 0x3b80d680bf69ef58, 0x275e23ffeeca50b7, 0xc54a6eaa24a0552c)
    ensures Extends(0x786433dd2fe65556, 0xcc4918b5949206bb, 0x0d0696933945a125, 0x3b80d680bf69ef58, 0xb3c8f1530bdbaa9e)
    ensures Extends(0xc54a6eaa24a0552c, 0x5099c3add79f90ec, 0x7533eabcb786ff00, 0x0d0696933945a125, 0xbb8abfe56f469338)
  {
  }

  lemma Sums72()
    ensures Extends(0xb3c8f1530bdbaa9e, 0x5ea81d78e7660bf1, 0xb89826cee6fbf0e5, 0x7533eabcb786ff00, 0xf63d4265cc1c5a78)
    ensures Extends(0xbb8abfe56f469338, 0xebee6267405ac2a9, 0x249b4fbcad623e9f, 0xb89826cee6fbf0e5, 0xbe8355ea73129afb)
    ensures Extends(0xf63d4265cc1c5a78, 0xb01f21926108a4ab, 0x4aea9df2b02d6f1e, 0x249b4fbcad623e9f, 0x49e2db8ebdcfbeb5)
    ensures Extends(0xbe8355ea73129afb, 0x786433dd2fe65556, 0x2cc57475a55e8d8f, 0x4aea9df2b02d6f1e, 0x82269d4a883a3d99)
    ensures Extends(0x49e2db8ebdcfbeb5, 0xc54a6eaa24a0552c, 0xb2574ae938d8be89, 0x2cc57475a55e8d8f, 0xfdf53df3011f362b)
    ensures Extends(0x82269d4a883a3d99, 0xb3c8f1530bdbaa9e, 0xc1b35a57b16d6aea, 0xb2574ae938d8be89, 0x464af5671d71c12e)
    ensures Extends(0xfdf53df3011f362b, 0xbb8abfe56f469338, 0xcc4918b5949206bb, 0xc1b35a57b16d6aea, 0xe449b68198ec611c)
    ensures Extends(0x464af5671d71c12e, 0xf63d4265cc1c5a78, 0x5099c3add79f90ec, 0xcc4918b5949206bb, 0x92aeeed1a7bcf7d2)
  {
  }

  lemma Words64(b: seq<Word64>, t: nat)
    requires |b| == 16
    requires Window(b, t,
                    0xebeaf1237248019c, 0x361e80b2d00f3193, 0x2e9839125df3b175, 0x3319629293ad5363,
                    0x9cbc5d89ac1b89d5, 0x275e23ffeeca50b7, 0x3b80d680bf69ef58, 0x0d0696933945a125,
                    0x7533eabcb786ff00, 0xb89826cee6fbf0e5, 0x249b4fbcad623e9f, 0x4aea9df2b02d6f1e,
                    0x2cc57475a55e8d8f, 0xb2574ae938d8be89, 0xc1b35a57b16d6aea, 0xcc4918b5949206bb)
    ensures Window(b, t + 16,
                    0x5099c3add79f90ec, 0x5ea81d78e7660bf1, 0xebee6267405ac2a9, 0xb01f21926108a4ab,
                    0x786433dd2fe65556, 0xc54a6eaa24a0552c, 0xb3c8f1530bdbaa9e, 0xbb8abfe56f469338,
                    0xf63d4265cc1c5a78, 0xbe8355ea73129afb, 0x49e2db8ebdcfbeb5, 0x82269d4a883a3d99,
                    0xfdf53df3011f362b, 0x464af5671d71c12e, 0xe449b68198ec611c, 0x92aeeed1a7bcf7d2)
  {
    hide Schedule, Extends;
    Sums64();
    Sums72();
    NextWord(b, t + 16, 0x5099c3add79f90ec); NextWord(b, t + 17, 0x5ea81d78e7660bf1);
    NextWord(b, t + 18, 0xebee6267405ac2a9); NextWord(b, t + 19, 0xb01f21926108a4ab);
    NextWord(b, t + 20, 0x786433dd2fe65556); NextWord(b, t + 21, 0xc54a6eaa24a0552c);
    NextWord(b, t + 22, 0xb3c8f1530bdbaa9e); NextWord(b, t + 23, 0xbb8abfe56f469338);
    NextWord(b, t + 24, 0xf63d4265cc1c5a78); NextWord(b, t + 25, 0xbe8355ea73129afb);
    NextWord(b, t + 26, 0x49e2db8ebdcfbeb5); NextWord(b, t + 27, 0x82269d4a883a3d99);
    NextWord(b, t + 28, 0xfdf53df3011f362b); NextWord(b, t + 29, 0x464af5671d71c12e);
    NextWord(b, t + 30, 0xe449b68198ec611c); NextWord(b, t + 31, 0x92aeeed1a7bcf7d2);
  }

  // ---------------------------------------------------------------- the rounds

  /** The working variables after each round. */
  const AFTER0 :=
    Regs(0x6a09e667f3bcc908, 0xbb67ae8584caa73b, 0x3c6ef372fe94f82b, 0xa54ff53a5f1d36f1,
         0x510e527fade682d1, 0x9b05688c2b3e6c1f, 0x1f83d9abfb41bd6b, 0x5be0cd19137e2179)
  const AFTER1 :=
    Regs(0xf6afceb8bcfcddf5, 0x6a09e667f3bcc908, 0xbb67ae8584caa73b, 0x3c6ef372fe94f82b,
         0x58cb02347ab51f91, 0x510e527fade682d1, 0x9b05688c2b3e6c1f, 0x1f83d9abfb41bd6b)
  const AFTER2 :=
    Regs(0x1320f8c9fb872cc0, 0xf6afceb8bcfcddf5, 0x6a09e667f3bcc908, 0xbb67ae8584caa73b,
         0xc3d4ebfd48650ffa, 0x58cb02347ab51f91, 0x510e527fade682d1, 0x9b05688c2b3e6c1f)
  const AFTER3 :=
    Regs(0xebcffc07203d91f3, 0x1320f8c9fb872cc0, 0xf6afceb8bcfcddf5, 0x6a09e667f3bcc908,
         0xdfa9b239f2697812, 0xc3d4ebfd48650ffa, 0x58cb02347ab51f91, 0x510e527fade682d1)
  const AFTER4 :=
    Regs(0x5a83cb3e80050e82, 0xebcffc07203d91f3, 0x1320f8c9fb872cc0, 0xf6afceb8bcfcddf5,
         0x0b47b4bb1928990e, 0xdfa9b239f2697812, 0xc3d4ebfd48650ffa, 0x58cb02347ab51f91)
  const AFTER5 :=
    Regs(0xb680953951604860, 0x5a83cb3e80050e82, 0xebcffc07203d91f3, 0x1320f8c9fb872cc0,
         0x745aca4a342ed2e2, 0x0b47b4bb1928990e, 0xdfa9b239f2697812, 0xc3d4ebfd48650ffa)
  const AFTER6 :=
    Regs(0xaf573b02403e89cd, 0xb680953951604860, 0x5a83cb3e80050e82, 0xebcffc07203d91f3,
         0x96f60209b6dc35ba, 0x745aca4a342ed2e2, 0x0b47b4bb1928990e, 0xdfa9b239f2697812)
  const AFTER7 :=
    Regs(0xc4875b0c7abc076b, 0xaf573b02403e89cd, 0xb680953951604860, 0x5a83cb3e80050e82,
         0x5a6c781f54dcc00c, 0x96f60209b6dc35ba, 0x745aca4a342ed2e2, 0x0b47b4bb1928990e)
  const AFTER8 :=
    Regs(0x8093d195e0054fa3, 0xc4875b0c7abc076b, 0xaf573b02403e89cd, 0xb680953951604860,
         0x86f67263a0f0ec0a, 0x5a6c781f54dcc00c, 0x96f60209b6dc35ba, 0x745aca4a342ed2e2)
  const AFTER9 :=
    Regs(0xf1eca5544cb89225, 0x8093d195e0054fa3, 0xc4875b0c7abc076b, 0xaf573b02403e89cd,
         0xd0403c398fc40002, 0x86f67263a0f0ec0a, 0x5a6c781f54dcc00c, 0x96f60209b6dc35ba)
  const AFTER10 :=
    Regs(0x81782d4a5db48f03, 0xf1eca5544cb89225, 0x8093d195e0054fa3, 0xc4875b0c7abc076b,
         0x00091f460be46c52, 0xd0403c398fc40002, 0x86f67263a0f0ec0a, 0x5a6c781f54dcc00c)
  const AFTER11 :=
    Regs(0x69854c4aa0f25b59, 0x81782d4a5db48f03, 0xf1eca5544cb89225, 0x8093d195e0054fa3,
         0xd375471bde1ba3f4, 0x00091f460be46c52, 0xd0403c398fc40002, 0x86f67263a0f0ec0a)
  const AFTER12 :=
    Regs(0xdb0a9963f80c2eaa, 0x69854c4aa0f25b59, 0x81782d4a5db48f03, 0xf1eca5544cb89225,
         0x475975b91a7a462c, 0xd375471bde1ba3f4, 0x00091f460be46c52, 0xd0403c398fc40002)
  const AFTER13 :=
    Regs(0x5e41214388186c14, 0xdb0a9963f80c2eaa, 0x69854c4aa0f25b59, 0x81782d4a5db48f03,
         0xcdf3bff2883fc9d9, 0x475975b91a7a462c, 0xd375471bde1ba3f4, 0x00091f460be46c52)
  const AFTER14 :=
    Regs(0x44249631255d2ca0, 0x5e41214388186c14, 0xdb0a9963f80c2eaa, 0x69854c4aa0f25b59,
         0x860acf9effba6f61, 0xcdf3bff2883fc9d9, 0x475975b91a7a462c, 0xd375471bde1ba3f4)
  const AFTER15 :=
    Regs(0xfa967eed85a08028, 0x44249631255d2ca0, 0x5e41214388186c14, 0xdb0a9963f80c2eaa,
         0x874bfe5f6aae9f2f, 0x860acf9effba6f61, 0xcdf3bff2883fc9d9, 0x475975b91a7a462c)
  const AFTER16 :=
    Regs(0x0ae07c86b1181c75, 0xfa967eed85a08028, 0x44249631255d2ca0, 0x5e41214388186c14,
         0xa77b7c035dd4c161, 0x874bfe5f6aae9f2f, 0x860acf9effba6f61, 0xcdf3bff2883fc9d9)
  const AFTER17 :=
    Regs(0xcaf81a425d800537, 0x0ae07c86b1181c75, 0xfa967eed85a08028, 0x44249631255d2ca0,
         0x2deecc6b39d64d78, 0xa77b7c035dd4c161, 0x874bfe5f6aae9f2f, 0x860acf9effba6f61)
  const AFTER18 :=
    Regs(0x4725be249ad19e6b, 0xcaf81a425d800537, 0x0ae07c86b1181c75, 0xfa967eed85a08028,
         0xf47e8353f8047455, 0x2deecc6b39d64d78, 0xa77b7c035dd4c161, 0x874bfe5f6aae9f2f)
  const AFTER19 :=
    Regs(0x3c4b4104168e3edb, 0x4725be249ad19e6b, 0xcaf81a425d800537, 0x0ae07c86b1181c75,
         0x29695fd88d81dbd0, 0xf47e8353f8047455, 0x2deecc6b39d64d78, 0xa77b7c035dd4c161)
  const AFTER20 :=
    Regs(0x9a3fb4d38ab6cf06, 0x3c4b4104168e3edb, 0x4725be249ad19e6b, 0xcaf81a425d800537,
         0xf14998dd5f70767e, 0x29695fd88d81dbd0, 0xf47e8353f8047455, 0x2deecc6b39d64d78)
  const AFTER21 :=
    Regs(0x8dc5ae65569d3855, 0x9a3fb4d38ab6cf06, 0x3c4b4104168e3edb, 0x4725be249ad19e6b,
         0x4bb9e66d1145bfdc, 0xf14998dd5f70767e, 0x29695fd88d81dbd0, 0xf47e8353f8047455)
  const AFTER22 :=
    Regs(0xda34d6673d452dcf, 0x8dc5ae65569d3855, 0x9a3fb4d38ab6cf06, 0x3c4b4104168e3edb,
         0x8e30ff09ad488753, 0x4bb9e66d1145bfdc, 0xf14998dd5f70767e, 0x29695fd88d81dbd0)
  const AFTER23 :=
    Regs(0x3e2644567b709a78, 0xda34d6673d452dcf, 0x8dc5ae65569d3855, 0x9a3fb4d38ab6cf06,
         0x0ac2b11da8f571c6, 0x8e30ff09ad488753, 0x4bb9e66d1145bfdc, 0xf14998dd5f70767e)
  const AFTER24 :=
    Regs(0x4f6877b58fe55484, 0x3e2644567b709a78, 0xda34d6673d452dcf, 0x8dc5ae65569d3855,
         0xc66005f87db55233, 0x0ac2b11da8f571c6, 0x8e30ff09ad488753, 0x4bb9e66d1145bfdc)
  const AFTER25 :=
    Regs(0x9aff71163fa3a940, 0x4f6877b58fe55484, 0x3e2644567b709a78, 0xda34d6673d452dcf,
         0xd3ecf13769180e6f, 0xc66005f87db55233, 0x0ac2b11da8f571c6, 0x8e30ff09ad488753)
  const AFTER26 :=
    Regs(0x0bc5f791f8e6816b, 0x9aff71163fa3a940, 0x4f6877b58fe55484, 0x3e2644567b709a78,
         0x6ddf1fd7edcce336, 0xd3ecf13769180e6f, 0xc66005f87db55233, 0x0ac2b11da8f571c6)
  const AFTER27 :=
    Regs(0x884c3bc27bc4f941, 0x0bc5f791f8e6816b, 0x9aff71163fa3a940, 0x4f6877b58fe55484,
         0xe6e48c9a8e948365, 0x6ddf1fd7edcce336, 0xd3ecf13769180e6f, 0xc66005f87db55233)
  const AFTER28 :=
    Regs(0xeab4a9e5771b8d09, 0x884c3bc27bc4f941, 0x0bc5f791f8e6816b, 0x9aff71163fa3a940,
         0x09068a4e255a0dac, 0xe6e48c9a8e948365, 0x6ddf1fd7edcce336, 0xd3ecf13769180e6f)
  const AFTER29 :=
    Regs(0xe62349090f47d30a, 0xeab4a9e5771b8d09, 0x884c3bc27bc4f941, 0x0bc5f791f8e6816b,
         0x0fcdf99710f21584, 0x09068a4e255a0dac, 0xe6e48c9a8e948365, 0x6ddf1fd7edcce336)
  const AFTER30 :=
    Regs(0x74bf40f869094c63, 0xe62349090f47d30a, 0xeab4a9e5771b8d09, 0x884c3bc27bc4f941,
         0xf0aec2fe1437f085, 0x0fcdf99710f21584, 0x09068a4e255a0dac, 0xe6e48c9a8e948365)
  const AFTER31 :=
    Regs(0x4c4fbbb75f1873a6, 0x74bf40f869094c63, 0xe62349090f47d30a, 0xeab4a9e5771b8d09,
         0x73e025d91b9efea3, 0xf0aec2fe1437f085, 0x0fcdf99710f21584, 0x09068a4e255a0dac)
  const AFTER32 :=
    Regs(0xff4d3f1f0d46a736, 0x4c4fbbb75f1873a6, 0x74bf40f869094c63, 0xe62349090f47d30a,
         0x3cd388e119e8162e, 0x73e025d91b9efea3, 0xf0aec2fe1437f085, 0x0fcdf99710f21584)
  const AFTER33 :=
    Regs(0xa0509015ca08c8d4, 0xff4d3f1f0d46a736, 0x4c4fbbb75f1873a6, 0x74bf40f869094c63,
         0xe1034573654a106f, 0x3cd388e119e8162e, 0x73e025d91b9efea3, 0xf0aec2fe1437f085)
  const AFTER34 :=
    Regs(0x60d4e6995ed91fe6, 0xa0509015ca08c8d4, 0xff4d3f1f0d46a736, 0x4c4fbbb75f1873a6,
         0xefabbd8bf47c041a, 0xe1034573654a106f, 0x3cd388e119e8162e, 0x73e025d91b9efea3)
  const AFTER35 :=
    Regs(0x2c59ec7743632621, 0x60d4e6995ed91fe6, 0xa0509015ca08c8d4, 0xff4d3f1f0d46a736,
         0x0fbae670fa780fd3, 0xefabbd8bf47c041a, 0xe1034573654a106f, 0x3cd388e119e8162e)
  const AFTER36 :=
    Regs(0x1a081afc59fdbc2c, 0x2c59ec7743632621, 0x60d4e6995ed91fe6, 0xa0509015ca08c8d4,
         0xf098082f502b44cd, 0x0fbae670fa780fd3, 0xefabbd8bf47c041a, 0xe1034573654a106f)
  const AFTER37 :=
    Regs(0x88df85b0bbe77514, 0x1a081afc59fdbc2c, 0x2c59ec7743632621, 0x60d4e6995ed91fe6,
         0x8fbfd0162bbf4675, 0xf098082f502b44cd, 0x0fbae670fa780fd3, 0xefabbd8bf47c041a)
  const AFTER38 :=
    Regs(0x002bb8e4cd989567, 0x88df85b0bbe77514, 0x1a081afc59fdbc2c, 0x2c59ec7743632621,
         0x66adcfa249ac7bbd, 0x8fbfd0162bbf4675, 0xf098082f502b44cd, 0x0fbae670fa780fd3)
  const AFTER39 :=
    Regs(0xb3bb8542b3376de5, 0x002bb8e4cd989567, 0x88df85b0bbe77514, 0x1a081afc59fdbc2c,
         0xb49596c20feba7de, 0x66adcfa249ac7bbd, 0x8fbfd0162bbf4675, 0xf098082f502b44cd)
  const AFTER40 :=
    Regs(0x8e01e125b855d225, 0xb3bb8542b3376de5, 0x002bb8e4cd989567, 0x88df85b0bbe77514,
         0x0c710a47ba6a567b, 0xb49596c20feba7de, 0x66adcfa249ac7bbd, 0x8fbfd0162bbf4675)
  const AFTER41 :=
    Regs(0xb01521dd6a6be12c, 0x8e01e125b855d225, 0xb3bb8542b3376de5, 0x002bb8e4cd989567,
         0x169008b3a4bb170b, 0x0c710a47ba6a567b, 0xb49596c20feba7de, 0x66adcfa249ac7bbd)
  const AFTER42 :=
    Regs(0xe96f89dd48cbd851, 0xb01521dd6a6be12c, 0x8e01e125b855d225, 0xb3bb8542b3376de5,
         0xf0996439e7b50cb1, 0x169008b3a4bb170b, 0x0c710a47ba6a567b, 0xb49596c20feba7de)
  const AFTER43 :=
    Regs(0xbc05ba8de5d3c480, 0xe96f89dd48cbd851, 0xb01521dd6a6be12c, 0x8e01e125b855d225,
         0x639cb938e14dc190, 0xf0996439e7b50cb1, 0x169008b3a4bb170b, 0x0c710a47ba6a567b)
  const AFTER44 :=
    Regs(0x35d7e7f41defcbd5, 0xbc05ba8de5d3c480, 0xe96f89dd48cbd851, 0xb01521dd6a6be12c,
         0xcc5100997f5710f2, 0x639cb938e14dc190, 0xf0996439e7b50cb1, 0x169008b3a4bb170b)
  const AFTER45 :=
    Regs(0xc47c9d5c7ea8a234, 0x35d7e7f41defcbd5, 0xbc05ba8de5d3c480, 0xe96f89dd48cbd851,
         0x858d832ae0e8911c, 0xcc5100997f5710f2, 0x639cb938e14dc190, 0xf0996439e7b50cb1)
  const AFTER46 :=
    Regs(0x021fbadbabab5ac6, 0xc47c9d5c7ea8a234, 0x35d7e7f41defcbd5, 0xbc05ba8de5d3c480,
         0xe95c2a57572d64d9, 0x858d832ae0e8911c, 0xcc5100997f5710f2, 0x639cb938e14dc190)
  const AFTER47 :=
    Regs(0xf61e672694de2d67, 0x021fbadbabab5ac6, 0xc47c9d5c7ea8a234, 0x35d7e7f41defcbd5,
         0xc6bc35740d8daa9a, 0xe95c2a57572d64d9, 0x858d832ae0e8911c, 0xcc5100997f5710f2)
  const AFTER48 :=
    Regs(0x6b69fc1bb482feac, 0xf61e672694de2d67, 0x021fbadbabab5ac6, 0xc47c9d5c7ea8a234,
         0x35264334c03ac8ad, 0xc6bc35740d8daa9a, 0xe95c2a57572d64d9, 0x858d832ae0e8911c)
  const AFTER49 :=
    Regs(0x571f323d96b3a047, 0x6b69fc1bb482feac, 0xf61e672694de2d67, 0x021fbadbabab5ac6,
         0x271580ed6c3e5650, 0x35264334c03ac8ad, 0xc6bc35740d8daa9a, 0xe95c2a57572d64d9)
  const AFTER50 :=
    Regs(0xca9bd862c5050918, 0x571f323d96b3a047, 0x6b69fc1bb482feac, 0xf61e672694de2d67,
         0xdfe091dab182e645, 0x271580ed6c3e5650, 0x35264334c03ac8ad, 0xc6bc35740d8daa9a)
  const AFTER51 :=
    Regs(0x813a43dd2c502043, 0xca9bd862c5050918, 0x571f323d96b3a047, 0x6b69fc1bb482feac,
         0x07a0d8ef821c5e1a, 0xdfe091dab182e645, 0x271580ed6c3e5650, 0x35264334c03ac8ad)
  const AFTER52 :=
    Regs(0xd43f83727325dd77, 0x813a43dd2c502043, 0xca9bd862c5050918, 0x571f323d96b3a047,
         0x483f80a82eaee23e, 0x07a0d8ef821c5e1a, 0xdfe091dab182e645, 0x271580ed6c3e5650)
  const AFTER53 :=
    Regs(0x03df11b32d42e203, 0xd43f83727325dd77, 0x813a43dd2c502043, 0xca9bd862c5050918,
         0x504f94e40591cffa, 0x483f80a82eaee23e, 0x07a0d8ef821c5e1a, 0xdfe091dab182e645)
  const AFTER54 :=
    Regs(0xd63f68037ddf06aa, 0x03df11b32d42e203, 0xd43f83727325dd77, 0x813a43dd2c502043,
         0xa6781efe1aa1ce02, 0x504f94e40591cffa, 0x483f80a82eaee23e, 0x07a0d8ef821c5e1a)
  const AFTER55 :=
    Regs(0xf650857b5babda4d, 0xd63f68037ddf06aa, 0x03df11b32d42e203, 0xd43f83727325dd77,
         0x9ccfb31a86df0f86, 0xa6781efe1aa1ce02, 0x504f94e40591cffa, 0x483f80a82eaee23e)
  const AFTER56 :=
    Regs(0x63b460e42748817e, 0xf650857b5babda4d, 0xd63f68037ddf06aa, 0x03df11b32d42e203,
         0xc6b4dd2a9931c509, 0x9ccfb31a86df0f86, 0xa6781efe1aa1ce02, 0x504f94e40591cffa)
  const AFTER57 :=
    Regs(0x7a52912943d52b05, 0x63b460e42748817e, 0xf650857b5babda4d, 0xd63f68037ddf06aa,
         0xd2e89bbd91e00be0, 0xc6b4dd2a9931c509, 0x9ccfb31a86df0f86, 0xa6781efe1aa1ce02)
  const AFTER58 :=
    Regs(0x4b81c3aec976ea4b, 0x7a52912943d52b05, 0x63b460e42748817e, 0xf650857b5babda4d,
         0x70505988124351ac, 0xd2e89bbd91e00be0, 0xc6b4dd2a9931c509, 0x9ccfb31a86df0f86)
  const AFTER59 :=
    Regs(0x581ecb3355dcd9b8, 0x4b81c3aec976ea4b, 0x7a52912943d52b05, 0x63b460e42748817e,
         0x6a3c9b0f71c8bf36, 0x70505988124351ac, 0xd2e89bbd91e00be0, 0xc6b4dd2a9931c509)
  const AFTER60 :=
    Regs(0x2c074484ef1eac8c, 0x581ecb3355dcd9b8, 0x4b81c3aec976ea4b, 0x7a52912943d52b05,
         0x4797cde4ed370692, 0x6a3c9b0f71c8bf36, 0x70505988124351ac, 0xd2e89bbd91e00be0)
  const AFTER61 :=
    Regs(0x3857dfd2fc37d3ba, 0x2c074484ef1eac8c, 0x581ecb3355dcd9b8, 0x4b81c3aec976ea4b,
         0xa6af4e9c9f807e51, 0x4797cde4ed370692, 0x6a3c9b0f71c8bf36, 0x70505988124351ac)
  const AFTER62 :=
    Regs(0xcfcd928c5424e2b6, 0x3857dfd2fc37d3ba, 0x2c074484ef1eac8c, 0x581ecb3355dcd9b8,
         0x09aee5bda1644de5, 0xa6af4e9c9f807e51, 0x4797cde4ed370692, 0x6a3c9b0f71c8bf36)
  const AFTER63 :=
    Regs(0xa81dedbb9f19e643, 0xcfcd928c5424e2b6, 0x3857dfd2fc37d3ba, 0x2c074484ef1eac8c,
         0x84058865d60a05fa, 0x09aee5bda1644de5, 0xa6af4e9c9f807e51, 0x4797cde4ed370692)
  const AFTER64 :=
    Regs(0xab44e86276478d85, 0xa81dedbb9f19e643, 0xcfcd928c5424e2b6, 0x3857dfd2fc37d3ba,
         0xcd881ee59ca6bc53, 0x84058865d60a05fa, 0x09aee5bda1644de5, 0xa6af4e9c9f807e51)
  const AFTER65 :=
    Regs(0x5a806d7e9821a501, 0xab44e86276478d85, 0xa81dedbb9f19e643, 0xcfcd928c5424e2b6,
         0xaa84b086688a5c45, 0xcd881ee59ca6bc53, 0x84058865d60a05fa, 0x09aee5bda1644de5)
  const AFTER66 :=
    Regs(0xeeb9c21bb0102598, 0x5a806d7e9821a501, 0xab44e86276478d85, 0xa81dedbb9f19e643,
         0x3b5fed0d6a1f96e1, 0xaa84b086688a5c45, 0xcd881ee59ca6bc53, 0x84058865d60a05fa)
  const AFTER67 :=
    Regs(0x46c4210ab2cc155d, 0xeeb9c21bb0102598, 0x5a806d7e9821a501, 0xab44e86276478d85,
         0x29fab5a7bff53366, 0x3b5fed0d6a1f96e1, 0xaa84b086688a5c45, 0xcd881ee59ca6bc53)
  const AFTER68 :=
    Regs(0x54ba35cf56a0340e, 0x46c4210ab2cc155d, 0xeeb9c21bb0102598, 0x5a806d7e9821a501,
         0x1c66f46d95690bcf, 0x29fab5a7bff53366, 0x3b5fed0d6a1f96e1, 0xaa84b086688a5c45)
  const AFTER69 :=
    Regs(0x181839d609c79748, 0x54ba35cf56a0340e, 0x46c4210ab2cc155d, 0xeeb9c21bb0102598,
         0x0ada78ba2d446140, 0x1c66f46d95690bcf, 0x29fab5a7bff53366, 0x3b5fed0d6a1f96e1)
  const AFTER70 :=
    Regs(0xfb6aaae5d0b6a447, 0x181839d609c79748, 0x54ba35cf56a0340e, 0x46c4210ab2cc155d,
         0xe3711cb6564d112d, 0x0ada78ba2d446140, 0x1c66f46d95690bcf, 0x29fab5a7bff53366)
  const AFTER71 :=
    Regs(0x7652c579cb60f19c, 0xfb6aaae5d0b6a447, 0x181839d609c79748, 0x54ba35cf56a0340e,
         0xaff62c9665ff80fa, 0xe3711cb6564d112d, 0x0ada78ba2d446140, 0x1c66f46d95690bcf)
  const AFTER72 :=
    Regs(0xf15e9664b2803575, 0x7652c579cb60f19c, 0xfb6aaae5d0b6a447, 0x181839d609c79748,
         0x947c3dfafee570ef, 0xaff62c9665ff80fa, 0xe3711cb6564d112d, 0x0ada78ba2d446140)
  const AFTER73 :=
    Regs(0x358406d165aee9ab, 0xf15e9664b2803575, 0x7652c579cb60f19c, 0xfb6aaae5d0b6a447,
         0x8c7b5fd91a794ca0, 0x947c3dfafee570ef, 0xaff62c9665ff80fa, 0xe3711cb6564d112d)
  const AFTER74 :=
    Regs(0x20878dcd29cdfaf5, 0x358406d165aee9ab, 0xf15e9664b2803575, 0x7652c579cb60f19c,
         0x054d3536539948d0, 0x8c7b5fd91a794ca0, 0x947c3dfafee570ef, 0xaff62c9665ff80fa)
  const AFTER75 :=
    Regs(0x33d48dabb5521de2, 0x20878dcd29cdfaf5, 0x358406d165aee9ab, 0xf15e9664b2803575,
         0x2ba18245b50de4cf, 0x054d3536539948d0, 0x8c7b5fd91a794ca0, 0x947c3dfafee570ef)
  const AFTER76 :=
    Regs(0xc8960e6be864b916, 0x33d48dabb5521de2, 0x20878dcd29cdfaf5, 0x358406d165aee9ab,
         0x995019a6ff3ba3de, 0x2ba18245b50de4cf, 0x054d3536539948d0, 0x8c7b5fd91a794ca0)
  const AFTER77 :=
    Regs(0x654ef9abec389ca9, 0xc8960e6be864b916, 0x33d48dabb5521de2, 0x20878dcd29cdfaf5,
         0xceb9fc3691ce8326, 0x995019a6ff3ba3de, 0x2ba18245b50de4cf, 0x054d3536539948d0)
  const AFTER78 :=
    Regs(0xd67806db8b148677, 0x654ef9abec389ca9, 0xc8960e6be864b916, 0x33d48dabb5521de2,
         0x25c96a7768fb2aa3, 0xceb9fc3691ce8326, 0x995019a6ff3ba3de, 0x2ba18245b50de4cf)
  const AFTER79 :=
    Regs(0x10d9c4c4295599f6, 0xd67806db8b148677, 0x654ef9abec389ca9, 0xc8960e6be864b916,
         0x9bb4d39778c07f9e, 0x25c96a7768fb2aa3, 0xceb9fc3691ce8326, 0x995019a6ff3ba3de)
  const AFTER80 :=
    Regs(0x73a54f399fa4b1b2, 0x10d9c4c4295599f6, 0xd67806db8b148677, 0x654ef9abec389ca9,
         0xd08446aa79693ed7, 0x9bb4d39778c07f9e, 0x25c96a7768fb2aa3, 0xceb9fc3691ce8326)

  lemma Rounds0()
    ensures Round(AFTER0, 0x428a2f98d728ae22, 0x6162638000000000) == AFTER1
    ensures Round(AFTER1, 0x7137449123ef65cd, 0x0000000000000000) == AFTER2
    ensures Round(AFTER2, 0xb5c0fbcfec4d3b2f, 0x0000000000000000) == AFTER3
    ensures Round(AFTER3, 0xe9b5dba58189dbbc, 0x0000000000000000) == AFTER4
    ensures Round(AFTER4, 0x3956c25bf348b538, 0x0000000000000000) == AFTER5
    ensures Round(AFTER5, 0x59f111f1b605d019, 0x0000000000000000) == AFTER6
    ensures Round(AFTER6, 0x923f82a4af194f9b, 0x0000000000000000) == AFTER7
    ensures Round(AFTER7, 0xab1c5ed5da6d8118, 0x0000000000000000) == AFTER8
  {
  }

  lemma Rounds8()
    ensures Round(AFTER8, 0xd807aa98a3030242, 0x0000000000000000) == AFTER9
    ensures Round(AFTER9, 0x12835b0145706fbe, 0x0000000000000000) == AFTER10
    ensures Round(AFTER10, 0x243185be4ee4b28c, 0x0000000000000000) == AFTER11
    ensures Round(AFTER11, 0x550c7dc3d5ffb4e2, 0x0000000000000000) == AFTER12
    ensures Round(AFTER12, 0x72be5d74f27b896f, 0x0000000000000000) == AFTER13
    ensures Round(AFTER13, 0x80deb1fe3b1696b1, 0x0000000000000000) == AFTER14
    ensures Round(AFTER14, 0x9bdc06a725c71235, 0x0000000000000000) == AFTER15
    ensures Round(AFTER15, 0xc19bf174cf692694, 0x0000000000000018) == AFTER16
  {
  }

  lemma Rounds16()
    ensures Round(AFTER16, 0xe49b69c19ef14ad2, 0x6162638000000000) == AFTER17
    ensures Round(AFTER17, 0xefbe4786384f25e3, 0x00030000000000c0) == AFTER18
    ensures Round(AFTER18, 0x0fc19dc68b8cd5b5, 0x0a9699a24c700003) == AFTER19
    ensures Round(AFTER19, 0x240ca1cc77ac9c65, 0x00000c0060000603) == AFTER20
    ensures Round(AFTER20, 0x2de92c6f592b0275, 0x549ef62639858996) == AFTER21
    ensures Round(AFTER21, 0x4a7484aa6ea6e483, 0x00c0003300003c00) == AFTER22
    ensures Round(AFTER22, 0x5cb0a9dcbd41fbd4, 0x1497007a8a0e9dbc) == AFTER23
    ensures Round(AFTER23, 0x76f988da831153b5, 0x62e56500cc0780f0) == AFTER24
  {
  }

  lemma Rounds24()
    ensures Round(AFTER24, 0x983e5152ee66dfab, 0x7760dd475a538797) == AFTER25
    ensures Round(AFTER25, 0xa831c66d2db43210, 0xf1554b711c1c0003) == AFTER26
    ensures Round(AFTER26, 0xb00327c898fb213f, 0xca2993a4345d9ff2) == AFTER27
    ensures Round(AFTER27, 0xbf597fc7beef0ee4, 0x5e0e66b5c783dd32) == AFTER28
    ensures Round(AFTER28, 0xc6e00bf33da88fc2, 0xe25a625d00494b62) == AFTER29
    ensures Round(AFTER29, 0xd5a79147930aa725, 0x9f44486fb1e4fbd2) == AFTER30
    ensures Round(AFTER30, 0x06ca6351e003826f, 0xb31b8c2b06085f2f) == AFTER31
    ensures Round(AFTER31, 0x142929670a0e6e70, 0x0e987660934142f6) == AFTER32
  {
  }

  lemma Rounds32()
    ensures Round(AFTER32, 0x27b70a8546d22ffc, 0xa4af2cfd09fbb924) == AFTER33
    ensures Round(AFTER33, 0x2e1b21385c26c926, 0xad289e2e0bd53186) == AFTER34
    ensures Round(AFTER34, 0x4d2c6dfc5ac42aed, 0x3c74563aa2f9673e) == AFTER35
    ensures Round(AFTER35, 0x53380d139d95b3df, 0x6ccdcd14cc14b53f) == AFTER36
    ensures Round(AFTER36, 0x650a73548baf63de, 0xc3f925b337f22bde) == AFTER37
    ensures Round(AFTER37, 0x766a0abb3c77b2a8, 0x5bcc77a75ad95b54) == AFTER38
    ensures Round(AFTER38, 0x81c2c92e47edaee6, 0x3ec2257adca09a52) == AFTER39
    ensures Round(AFTER39, 0x92722c851482353b, 0x28246960001fc5eb) == AFTER40
  {
  }

  lemma Rounds40()
    ensures Round(AFTER40, 0xa2bfe8a14cf10364, 0x04e33a75ce2be88a) == AFTER41
    ensures Round(AFTER41, 0xa81a664bbc423001, 0x7d5314b3c359e0e7) == AFTER42
    ensures Round(AFTER42, 0xc24b8b70d0f89791, 0xaef7a285ff251266) == AFTER43
    ensures Round(AFTER43, 0xc76c51a30654be30, 0x0b8472581deea04f) == AFTER44
    ensures Round(AFTER44, 0xd192e819d6ef5218, 0xb174e26eddc7b033) == AFTER45
    ensures Round(AFTER45, 0xd69906245565a910, 0x5d63bae58ddd88de) == AFTER46
    ensures Round(AFTER46, 0xf40e35855771202a, 0x4c044007b744ccbb) == AFTER47
    ensures Round(AFTER47, 0x106aa07032bbd1b8, 0xe6a9aa4d74dc7d43) == AFTER48
  {
  }

  lemma Rounds48()
    ensures Round(AFTER48, 0x19a4c116b8d2d0c8, 0xebeaf1237248019c) == AFTER49
    ensures Round(AFTER49, 0x1e376c085141ab53, 0x361e80b2d00f3193) == AFTER50
    ensures Round(AFTER50, 0x2748774cdf8eeb99, 0x2e9839125df3b175) == AFTER51
    ensures Round(AFTER51, 0x34b0bcb5e19b48a8, 0x3319629293ad5363) == AFTER52
    ensures Round(AFTER52, 0x391c0cb3c5c95a63, 0x9cbc5d89ac1b89d5) == AFTER53
    ensures Round(AFTER53, 0x4ed8aa4ae3418acb, 0x275e23ffeeca50b7) == AFTER54
    ensures Round(AFTER54, 0x5b9cca4f7763e373, 0x3b80d680bf69ef58) == AFTER55
    ensures Round(AFTER55, 0x682e6ff3d6b2b8a3, 0x0d0696933945a125) == AFTER56
  {
  }

  lemma Rounds56()
    ensures Round(AFTER56, 0x748f82ee5defb2fc, 0x7533eabcb786ff00) == AFTER57
    ensures Round(AFTER57, 0x78a5636f43172f60, 0xb89826cee6fbf0e5) == AFTER58
    ensures Round(AFTER58, 0x84c87814a1f0ab72, 0x249b4fbcad623e9f) == AFTER59
    ensures Round(AFTER59, 0x8cc702081a6439ec, 0x4aea9df2b02d6f1e) == AFTER60
    ensures Round(AFTER60, 0x90befffa23631e28, 0x2cc57475a55e8d8f) == AFTER61
    ensures Round(AFTER61, 0xa4506cebde82bde9, 0xb2574ae938d8be89) == AFTER62
    ensures Round(AFTER62, 0xbef9a3f7b2c67915, 0xc1b35a57b16d6aea) == AFTER63
    ensures Round(AFTER63, 0xc67178f2e372532b, 0xcc4918b5949206bb) == AFTER64
  {
  }

  lemma Rounds64()
    ensures Round(AFTER64, 0xca273eceea26619c, 0x5099c3add79f90ec) == AFTER65
    ensures Round(AFTER65, 0xd186b8c721c0c207, 0x5ea81d78e7660bf1) == AFTER66
    ensures Round(AFTER66, 0xeada7dd6cde0eb1e, 0xebee6267405ac2a9) == AFTER67
    ensures Round(AFTER67, 0xf57d4f7fee6ed178, 0xb01f21926108a4ab) == AFTER68
    ensures Round(AFTER68, 0x06f067aa72176fba, 0x786433dd2fe65556) == AFTER69
    ensures Round(AFTER69, 0x0a637dc5a2c898a6, 0xc54a6eaa24a0552c) == AFTER70
    ensures Round(AFTER70, 0x113f9804bef90dae, 0xb3c8f1530bdbaa9e) == AFTER71
    ensures Round(AFTER71, 0x1b710b35131c471b, 0xbb8abfe56f469338) == AFTER72
  {
  }

  lemma Rounds72()
    ensures Round(AFTER72, 0x28db77f523047d84, 0xf63d4265cc1c5a78) == AFTER73
    ensures Round(AFTER73, 0x32caab7b40c72493, 0xbe8355ea73129afb) == AFTER74
    ensures Round(AFTER74, 0x3c9ebe0a15c9bebc, 0x49e2db8ebdcfbeb5) == AFTER75
    ensures Round(AFTER75, 0x431d67c49c100d4c, 0x82269d4a883a3d99) == AFTER76
    ensures Round(AFTER76, 0x4cc5d4becb3e42b6, 0xfdf53df3011f362b) == AFTER77
    ensures Round(AFTER77, 0x597f299cfc657e2a, 0x464af5671d71c12e) == AFTER78
    ensures Round(AFTER78, 0x5fcb6fab3ad6faec, 0xe449b68198ec611c) == AFTER79
    ensures Round(AFTER79, 0x6c44198c4a475817, 0x92aeeed1a7bcf7d2) == AFTER80
  {
  }

  lemma NextRound(k: seq<Word64>, b: seq<Word64>, s: Regs, t: nat, r: Regs, c: Word64, w: Word64)
    requires |b| == 16 && t < |k| && k[t] == c && Schedule(b, t) == w && Rounds(k, b, s, t) == r
    ensures Rounds(k, b, s, t + 1) == Round(r, c, w)
  {
    hide Round, Rounds, Schedule;
    RoundsStep(k, b, s, t);
  }

  /** The constants of sixteen rounds, from t on. */
  ghost predicate Constants(k: seq<Word64>, t: nat, row: seq<Word64>) {
    t + 16 <= |k| && |row| == 16 && k[t..t + 16] == row
  }

  lemma AllConstants()
    ensures Constants(K512, 0, ROUND_CONSTANTS0)
    ensures Constants(K512, 16, ROUND_CONSTANTS1)
    ensures Constants(K512, 32, ROUND_CONSTANTS2)
    ensures Constants(K512, 48, ROUND_CONSTANTS3)
    ensures Constants(K512, 64, ROUND_CONSTANTS4)
  {
    hide ROUND_CONSTANTS0, ROUND_CONSTANTS1, ROUND_CONSTANTS2, ROUND_CONSTANTS3, ROUND_CONSTANTS4;
    RowLengths();
  }

  lemma Constants0(k: seq<Word64>, t: nat)
    requires Constants(k, t, ROUND_CONSTANTS0)
    ensures |k| >= t + 16
    ensures k[t] == 0x428a2f98d728ae22 && k[t + 1] == 0x7137449123ef65cd
    ensures k[t + 2] == 0xb5c0fbcfec4d3b2f && k[t + 3] == 0xe9b5dba58189dbbc
    ensures k[t + 4] == 0x3956c25bf348b538 && k[t + 5] == 0x59f111f1b605d019
    ensures k[t + 6] == 0x923f82a4af194f9b && k[t + 7] == 0xab1c5ed5da6d8118
  {
    var row := k[t..t + 16];
    assert k[t] == row[0] && k[t + 1] == row[1] && k[t + 2] == row[2] && k[t + 3] == row[3];
    assert k[t + 4] == row[4] && k[t + 5] == row[5] && k[t + 6] == row[6] && k[t + 7] == row[7];
  }

  lemma Through8(k: seq<Word64>, b: seq<Word64>, s: Regs, t: nat)
    requires |b| == 16 && Constants(k, t, ROUND_CONSTANTS0)
    requires Window(b, t,
                    0x6162638000000000, 0x0000000000000000, 0x0000000000000000, 0x0000000000000000,
                    0x0000000000000000, 0x0000000000000000, 0x0000000000000000, 0x0000000000000000,
                    0x0000000000000000, 0x0000000000000000, 0x0000000000000000, 0x0000000000000000,
                    0x0000000000000000, 0x0000000000000000, 0x0000000000000000, 0x0000000000000018)
    requires Rounds(k, b, s, t) == AFTER0
    ensures Rounds(k, b, s, t + 8) == AFTER8
  {
    hide Round, Rounds, Schedule, Constants,
         AFTER0, AFTER1, AFTER2, AFTER3, AFTER4, AFTER5, AFTER6, AFTER7, AFTER8;
    Rounds0();
    Constants0(k, t);
    NextRound(k, b, s, t, AFTER0, 0x428a2f98d728ae22, 0x6162638000000000);
    NextRound(k, b, s, t + 1, AFTER1, 0x7137449123ef65cd, 0x0000000000000000);
    NextRound(k, b, s, t + 2, AFTER2, 0xb5c0fbcfec4d3b2f, 0x0000000000000000);
    NextRound(k, b, s, t + 3, AFTER3, 0xe9b5dba58189dbbc, 0x0000000000000000);
    NextRound(k, b, s, t + 4, AFTER4, 0x3956c25bf348b538, 0x0000000000000000);
    NextRound(k, b, s, t + 5, AFTER5, 0x59f111f1b605d019, 0x0000000000000000);
    NextRound(k, b, s, t + 6, AFTER6, 0x923f82a4af194f9b, 0x0000000000000000);
    NextRound(k, b, s, t + 7, AFTER7, 0xab1c5ed5da6d8118, 0x0000000000000000);
  }

  lemma Constants8(k: seq<Word64>, t: nat)
    requires Constants(k, t, ROUND_CONSTANTS0)
    ensures |k| >= t + 16
    ensures k[t + 8] == 0xd807aa98a3030242 && k[t + 9] == 0x12835b0145706fbe
    ensures k[t + 10] == 0x243185be4ee4b28c && k[t + 11] == 0x550c7dc3d5ffb4e2
    ensures k[t + 12] == 0x72be5d74f27b896f && k[t + 13] == 0x80deb1fe3b1696b1
    ensures k[t + 14] == 0x9bdc06a725c71235 && k[t + 15] == 0xc19bf174cf692694
  {
    var row := k[t..t + 16];
    assert k[t + 8] == row[8] && k[t + 9] == row[9] && k[t + 10] == row[10] && k[t + 11] == row[11];
    assert k[t + 12] == row[12] && k[t + 13] == row[13] && k[t + 14] == row[14] && k[t + 15] == row[15];
  }

  lemma Through16(k: seq<Word64>, b: seq<Word64>, s: Regs, t: nat)
    requires |b| == 16 && Constants(k, t, ROUND_CONSTANTS0)
    requires Window(b, t,
                    0x6162638000000000, 0x0000000000000000, 0x0000000000000000, 0x0000000000000000,
                    0x0000000000000000, 0x0000000000000000, 0x0000000000000000, 0x0000000000000000,
                    0x0000000000000000, 0x0000000000000000, 0x0000000000000000, 0x0000000000000000,
                    0x0000000000000000, 0x0000000000000000, 0x0000000000000000, 0x0000000000000018)
    requires Rounds(k, b, s, t + 8) == AFTER8
    ensures Rounds(k, b, s, t + 16) == AFTER16
  {
    hide Round, Rounds, Schedule, Constants,
         AFTER8, AFTER9, AFTER10, AFTER11, AFTER12, AFTER13, AFTER14, AFTER15, AFTER16;
    Rounds8();
    Constants8(k, t);
    NextRound(k, b, s, t + 8, AFTER8, 0xd807aa98a3030242, 0x0000000000000000);
    NextRound(k, b, s, t + 9, AFTER9, 0x12835b0145706fbe, 0x0000000000000000);
    NextRound(k, b, s, t + 10, AFTER10, 0x243185be4ee4b28c, 0x0000000000000000);
    NextRound(k, b, s, t + 11, AFTER11, 0x550c7dc3d5ffb4e2, 0x0000000000000000);
    NextRound(k, b, s, t + 12, AFTER12, 0x72be5d74f27b896f, 0x0000000000000000);
    NextRound(k, b, s, t + 13, AFTER13, 0x80deb1fe3b1696b1, 0x0000000000000000);
    NextRound(k, b, s, t + 14, AFTER14, 0x9bdc06a725c71235, 0x0000000000000000);
    NextRound(k, b, s, t + 15, AFTER15, 0xc19bf174cf692694, 0x0000000000000018);
  }

  lemma Constants16(k: seq<Word64>, t: nat)
    requires Constants(k, t, ROUND_CONSTANTS1)
    ensures |k| >= t + 16
    ensures k[t] == 0xe49b69c19ef14ad2 && k[t + 1] == 0xefbe4786384f25e3
    ensures k[t + 2] == 0x0fc19dc68b8cd5b5 && k[t + 3] == 0x240ca1cc77ac9c65
    ensures k[t + 4] == 0x2de92c6f592b0275 && k[t + 5] == 0x4a7484aa6ea6e483
    ensures k[t + 6] == 0x5cb0a9dcbd41fbd4 && k[t + 7] == 0x76f988da831153b5
  {
    var row := k[t..t + 16];
    assert k[t] == row[0] && k[t + 1] == row[1] && k[t + 2] == row[2] && k[t + 3] == row[3];
    assert k[t + 4] == row[4] && k[t + 5] == row[5] && k[t + 6] == row[6] && k[t + 7] == row[7];
  }

  lemma Through24(k: seq<Word64>, b: seq<Word64>, s: Regs, t: nat)
    requires |b| == 16 && Constants(k, t, ROUND_CONSTANTS1)
    requires Window(b, t,
                    0x6162638000000000, 0x00030000000000c0, 0x0a9699a24c700003, 0x00000c0060000603,
                    0x549ef62639858996, 0x00c0003300003c00, 0x1497007a8a0e9dbc, 0x62e56500cc0780f0,
                    0x7760dd475a538797, 0xf1554b711c1c0003, 0xca2993a4345d9ff2, 0x5e0e66b5c783dd32,
                    0xe25a625d00494b62, 0x9f44486fb1e4fbd2, 0xb31b8c2b06085f2f, 0x0e987660934142f6)
    requires Rounds(k, b, s, t) == AFTER16
    ensures Rounds(k, b, s, t + 8) == AFTER24
  {
    hide Round, Rounds, Schedule, Constants,
         AFTER16, AFTER17, AFTER18, AFTER19, AFTER20, AFTER21, AFTER22, AFTER23, AFTER24;
    Rounds16();
    Constants16(k, t);
    NextRound(k, b, s, t, AFTER16, 0xe49b69c19ef14ad2, 0x6162638000000000);
    NextRound(k, b, s, t + 1, AFTER17, 0xefbe4786384f25e3, 0x00030000000000c0);
    NextRound(k, b, s, t + 2, AFTER18, 0x0fc19dc68b8cd5b5, 0x0a9699a24c700003);
    NextRound(k, b, s, t + 3, AFTER19, 0x240ca1cc77ac9c65, 0x00000c0060000603);
    NextRound(k, b, s, t + 4, AFTER20, 0x2de92c6f592b0275, 0x549ef62639858996);
    NextRound(k, b, s, t + 5, AFTER21, 0x4a7484aa6ea6e483, 0x00c0003300003c00);
    NextRound(k, b, s, t + 6, AFTER22, 0x5cb0a9dcbd41fbd4, 0x1497007a8a0e9dbc);
    NextRound(k, b, s, t + 7, AFTER23, 0x76f988da831153b5, 0x62e56500cc0780f0);
  }

  lemma Constants24(k: seq<Word64>, t: nat)
    requires Constants(k, t, ROUND_CONSTANTS1)
    ensures |k| >= t + 16
    ensures k[t + 8] == 0x983e5152ee66dfab && k[t + 9] == 0xa831c66d2db43210
    ensures k[t + 10] == 0xb00327c898fb213f && k[t + 11] == 0xbf597fc7beef0ee4
    ensures k[t + 12] == 0xc6e00bf33da88fc2 && k[t + 13] == 0xd5a79147930aa725
    ensures k[t + 14] == 0x06ca6351e003826f && k[t + 15] == 0x142929670a0e6e70
  {
    var row := k[t..t + 16];
    assert k[t + 8] == row[8] && k[t + 9] == row[9] && k[t + 10] == row[10] && k[t + 11] == row[11];
    assert k[t + 12] == row[12] && k[t + 13] == row[13] && k[t + 14] == row[14] && k[t + 15] == row[15];
  }

  lemma Through32(k: seq<Word64>, b: seq<Word64>, s: Regs, t: nat)
    requires |b| == 16 && Constants(k, t, ROUND_CONSTANTS1)
    requires Window(b, t,
                    0x6162638000000000, 0x00030000000000c0, 0x0a9699a24c700003, 0x00000c0060000603,
                    0x549ef62639858996, 0x00c0003300003c00, 0x1497007a8a0e9dbc, 0x62e56500cc0780f0,
                    0x7760dd475a538797, 0xf1554b711c1c0003, 0xca2993a4345d9ff2, 0x5e0e66b5c783dd32,
                    0xe25a625d00494b62, 0x9f44486fb1e4fbd2, 0xb31b8c2b06085f2f, 0x0e987660934142f6)
    requires Rounds(k, b, s, t + 8) == AFTER24
    ensures Rounds(k, b, s, t + 16) == AFTER32
  {
    hide Round, Rounds, Schedule, Constants,
         AFTER24, AFTER25, AFTER26, AFTER27, AFTER28, AFTER29, AFTER30, AFTER31, AFTER32;
    Rounds24();
    Constants24(k, t);
    NextRound(k, b, s, t + 8, AFTER24, 0x983e5152ee66dfab, 0x7760dd475a538797);
    NextRound(k, b, s, t + 9, AFTER25, 0xa831c66d2db43210, 0xf1554b711c1c0003);
    NextRound(k, b, s, t + 10, AFTER26, 0xb00327c898fb213f, 0xca2993a4345d9ff2);
    NextRound(k, b, s, t + 11, AFTER27, 0xbf597fc7beef0ee4, 0x5e0e66b5c783dd32);
    NextRound(k, b, s, t + 12, AFTER28, 0xc6e00bf33da88fc2, 0xe25a625d00494b62);
    NextRound(k, b, s, t + 13, AFTER29, 0xd5a79147930aa725, 0x9f44486fb1e4fbd2);
    NextRound(k, b, s, t + 14, AFTER30, 0x06ca6351e003826f, 0xb31b8c2b06085f2f);
    NextRound(k, b, s, t + 15, AFTER31, 0x142929670a0e6e70, 0x0e987660934142f6);
  }

  lemma Constants32(k: seq<Word64>, t: nat)
    requires Constants(k, t, ROUND_CONSTANTS2)
    ensures |k| >= t + 16
    ensures k[t] == 0x27b70a8546d22ffc && k[t + 1] == 0x2e1b21385c26c926
    ensures k[t + 2] == 0x4d2c6dfc5ac42aed && k[t + 3] == 0x53380d139d95b3df
    ensures k[t + 4] == 0x650a73548baf63de && k[t + 5] == 0x766a0abb3c77b2a8
    ensures k[t + 6] == 0x81c2c92e47edaee6 && k[t + 7] == 0x92722c851482353b
  {
    var row := k[t..t + 16];
    assert k[t] == row[0] && k[t + 1] == row[1] && k[t + 2] == row[2] && k[t + 3] == row[3];
    assert k[t + 4] == row[4] && k[t + 5] == row[5] && k[t + 6] == row[6] && k[t + 7] == row[7];
  }

  lemma Through40(k: seq<Word64>, b: seq<Word64>, s: Regs, t: nat)
    requires |b| == 16 && Constants(k, t, ROUND_CONSTANTS2)
    requires Window(b, t,
                    0xa4af2cfd09fbb924, 0xad289e2e0bd53186, 0x3c74563aa2f9673e, 0x6ccdcd14cc14b53f,
                    0xc3f925b337f22bde, 0x5bcc77a75ad95b54, 0x3ec2257adca09a52, 0x28246960001fc5eb,
                    0x04e33a75ce2be88a, 0x7d5314b3c359e0e7, 0xaef7a285ff251266, 0x0b8472581deea04f,
                    0xb174e26eddc7b033, 0x5d63bae58ddd88de, 0x4c044007b744ccbb, 0xe6a9aa4d74dc7d43)
    requires Rounds(k, b, s, t) == AFTER32
    ensures Rounds(k, b, s, t + 8) == AFTER40
  {
    hide Round, Rounds, Schedule, Constants,
         AFTER32, AFTER33, AFTER34, AFTER35, AFTER36, AFTER37, AFTER38, AFTER39, AFTER40;
    Rounds32();
    Constants32(k, t);
    NextRound(k, b, s, t, AFTER32, 0x27b70a8546d22ffc, 0xa4af2cfd09fbb924);
    NextRound(k, b, s, t + 1, AFTER33, 0x2e1b21385c26c926, 0xad289e2e0bd53186);
    NextRound(k, b, s, t + 2, AFTER34, 0x4d2c6dfc5ac42aed, 0x3c74563aa2f9673e);
    NextRound(k, b, s, t + 3, AFTER35, 0x53380d139d95b3df, 0x6ccdcd14cc14b53f);
    NextRound(k, b, s, t + 4, AFTER36, 0x650a73548baf63de, 0xc3f925b337f22bde);
    NextRound(k, b, s, t + 5, AFTER37, 0x766a0abb3c77b2a8, 0x5bcc77a75ad95b54);
    NextRound(k, b, s, t + 6, AFTER38, 0x81c2c92e47edaee6, 0x3ec2257adca09a52);
    NextRound(k, b, s, t + 7, AFTER39, 0x92722c851482353b, 0x28246960001fc5eb);
  }

  lemma Constants40(k: seq<Word64>, t: nat)
    requires Constants(k, t, ROUND_CONSTANTS2)
    ensures |k| >= t + 16
    ensures k[t + 8] == 0xa2bfe8a14cf10364 && k[t + 9] == 0xa81a664bbc423001
    ensures k[t + 10] == 0xc24b8b70d0f89791 && k[t + 11] == 0xc76c51a30654be30
    ensures k[t + 12] == 0xd192e819d6ef5218 && k[t + 13] == 0xd69906245565a910
    ensures k[t + 14] == 0xf40e35855771202a && k[t + 15] == 0x106aa07032bbd1b8
  {
    var row := k[t..t + 16];
    assert k[t + 8] == row[8] && k[t + 9] == row[9] && k[t + 10] == row[10] && k[t + 11] == row[11];
    assert k[t + 12] == row[12] && k[t + 13] == row[13] && k[t + 14] == row[14] && k[t + 15] == row[15];
  }

  lemma Through48(k: seq<Word64>, b: seq<Word64>, s: Regs, t: nat)
    requires |b| == 16 && Constants(k, t, ROUND_CONSTANTS2)
    requires Window(b, t,
                    0xa4af2cfd09fbb924, 0xad289e2e0bd53186, 0x3c74563aa2f9673e, 0x6ccdcd14cc14b53f,
                    0xc3f925b337f22bde, 0x5bcc77a75ad95b54, 0x3ec2257adca09a52, 0x28246960001fc5eb,
                    0x04e33a75ce2be88a, 0x7d5314b3c359e0e7, 0xaef7a285ff251266, 0x0b8472581deea04f,
                    0xb174e26eddc7b033, 0x5d63bae58ddd88de, 0x4c044007b744ccbb, 0xe6a9aa4d74dc7d43)
    requires Rounds(k, b, s, t + 8) == AFTER40
    ensures Rounds(k, b, s, t + 16) == AFTER48
  {
    hide Round, Rounds, Schedule, Constants,
         AFTER40, AFTER41, AFTER42, AFTER43, AFTER44, AFTER45, AFTER46, AFTER47, AFTER48;
    Rounds40();
    Constants40(k, t);
    NextRound(k, b, s, t + 8, AFTER40, 0xa2bfe8a14cf10364, 0x04e33a75ce2be88a);
    NextRound(k, b, s, t + 9, AFTER41, 0xa81a664bbc423001, 0x7d5314b3c359e0e7);
    NextRound(k, b, s, t + 10, AFTER42, 0xc24b8b70d0f89791, 0xaef7a285ff251266);
    NextRound(k, b, s, t + 11, AFTER43, 0xc76c51a30654be30, 0x0b8472581deea04f);
    NextRound(k, b, s, t + 12, AFTER44, 0xd192e819d6ef5218, 0xb174e26eddc7b033);
    NextRound(k, b, s, t + 13, AFTER45, 0xd69906245565a910, 0x5d63bae58ddd88de);
    NextRound(k, b, s, t + 14, AFTER46, 0xf40e35855771202a, 0x4c044007b744ccbb);
    NextRound(k, b, s, t + 15, AFTER47, 0x106aa07032bbd1b8, 0xe6a9aa4d74dc7d43);
  }

  lemma Constants48(k: seq<Word64>, t: nat)
    requires Constants(k, t, ROUND_CONSTANTS3)
    ensures |k| >= t + 16
    ensures k[t] == 0x19a4c116b8d2d0c8 && k[t + 1] == 0x1e376c085141ab53
    ensures k[t + 2] == 0x2748774cdf8eeb99 && k[t + 3] == 0x34b0bcb5e19b48a8
    ensures k[t + 4] == 0x391c0cb3c5c95a63 && k[t + 5] == 0x4ed8aa4ae3418acb
    ensures k[t + 6] == 0x5b9cca4f7763e373 && k[t + 7] == 0x682e6ff3d6b2b8a3
  {
    var row := k[t..t + 16];
    assert k[t] == row[0] && k[t + 1] == row[1] && k[t + 2] == row[2] && k[t + 3] == row[3];
    assert k[t + 4] == row[4] && k[t + 5] == row[5] && k[t + 6] == row[6] && k[t + 7] == row[7];
  }

  lemma Through56(k: seq<Word64>, b: seq<Word64>, s: Regs, t: nat)
    requires |b| == 16 && Constants(k, t, ROUND_CONSTANTS3)
    requires Window(b, t,
                    0xebeaf1237248019c, 0x361e80b2d00f3193, 0x2e9839125df3b175, 0x3319629293ad5363,
                    0x9cbc5d89ac1b89d5, 0x275e23ffeeca50b7, 0x3b80d680bf69ef58, 0x0d0696933945a125,
                    0x7533eabcb786ff00, 0xb89826cee6fbf0e5, 0x249b4fbcad623e9f, 0x4aea9df2b02d6f1e,
                    0x2cc57475a55e8d8f, 0xb2574ae938d8be89, 0xc1b35a57b16d6aea, 0xcc4918b5949206bb)
    requires Rounds(k, b, s, t) == AFTER48
    ensures Rounds(k, b, s, t + 8) == AFTER56
  {
    hide Round, Rounds, Schedule, Constants,
         AFTER48, AFTER49, AFTER50, AFTER51, AFTER52, AFTER53, AFTER54, AFTER55, AFTER56;
    Rounds48();
    Constants48(k, t);
    NextRound(k, b, s, t, AFTER48, 0x19a4c116b8d2d0c8, 0xebeaf1237248019c);
    NextRound(k, b, s, t + 1, AFTER49, 0x1e376c085141ab53, 0x361e80b2d00f3193);
    NextRound(k, b, s, t + 2, AFTER50, 0x2748774cdf8eeb99, 0x2e9839125df3b175);
    NextRound(k, b, s, t + 3, AFTER51, 0x34b0bcb5e19b48a8, 0x3319629293ad5363);
    NextRound(k, b, s, t + 4, AFTER52, 0x391c0cb3c5c95a63, 0x9cbc5d89ac1b89d5);
    NextRound(k, b, s, t + 5, AFTER53, 0x4ed8aa4ae3418acb, 0x275e23ffeeca50b7);
    NextRound(k, b, s, t + 6, AFTER54, 0x5b9cca4f7763e373, 0x3b80d680bf69ef58);
    NextRound(k, b, s, t + 7, AFTER55, 0x682e6ff3d6b2b8a3, 0x0d0696933945a125);
  }

  lemma Constants56(k: seq<Word64>, t: nat)
    requires Constants(k, t, ROUND_CONSTANTS3)
    ensures |k| >= t + 16
    ensures k[t + 8] == 0x748f82ee5defb2fc && k[t + 9] == 0x78a5636f43172f60
    ensures k[t + 10] == 0x84c87814a1f0ab72 && k[t + 11] == 0x8cc702081a6439ec
    ensures k[t + 12] == 0x90befffa23631e28 && k[t + 13] == 0xa4506cebde82bde9
    ensures k[t + 14] == 0xbef9a3f7b2c67915 && k[t + 15] == 0xc67178f2e372532b
  {
    var row := k[t..t + 16];
    assert k[t + 8] == row[8] && k[t + 9] == row[9] && k[t + 10] == row[10] && k[t + 11] == row[11];
    assert k[t + 12] == row[12] && k[t + 13] == row[13] && k[t + 14] == row[14] && k[t + 15] == row[15];
  }

  lemma Through64(k: seq<Word64>, b: seq<Word64>, s: Regs, t: nat)
    requires |b| == 16 && Constants(k, t, ROUND_CONSTANTS3)
    requires Window(b, t,
                    0xebeaf1237248019c, 0x361e80b2d00f3193, 0x2e9839125df3b175, 0x3319629293ad5363,
                    0x9cbc5d89ac1b89d5, 0x275e23ffeeca50b7, 0x3b80d680bf69ef58, 0x0d0696933945a125,
                    0x7533eabcb786ff00, 0xb89826cee6fbf0e5, 0x249b4fbcad623e9f, 0x4aea9df2b02d6f1e,
                    0x2cc57475a55e8d8f, 0xb2574ae938d8be89, 0xc1b35a57b16d6aea, 0xcc4918b5949206bb)
    requires Rounds(k, b, s, t + 8) == AFTER56
    ensures Rounds(k, b, s, t + 16) == AFTER64
  {
    hide Round, Rounds, Schedule, Constants,
         AFTER56, AFTER57, AFTER58, AFTER59, AFTER60, AFTER61, AFTER62, AFTER63, AFTER64;
    Rounds56();
    Constants56(k, t);
    NextRound(k, b, s, t + 8, AFTER56, 0x748f82ee5defb2fc, 0x7533eabcb786ff00);
    NextRound(k, b, s, t + 9, AFTER57, 0x78a5636f43172f60, 0xb89826cee6fbf0e5);
    NextRound(k, b, s, t + 10, AFTER58, 0x84c87814a1f0ab72, 0x249b4fbcad623e9f);
    NextRound(k, b, s, t + 11, AFTER59, 0x8cc702081a6439ec, 0x4aea9df2b02d6f1e);
    NextRound(k, b, s, t + 12, AFTER60, 0x90befffa23631e28, 0x2cc57475a55e8d8f);
    NextRound(k, b, s, t + 13, AFTER61, 0xa4506cebde82bde9, 0xb2574ae938d8be89);
    NextRound(k, b, s, t + 14, AFTER62, 0xbef9a3f7b2c67915, 0xc1b35a57b16d6aea);
    NextRound(k, b, s, t + 15, AFTER63, 0xc67178f2e372532b, 0xcc4918b5949206bb);
  }

  lemma Constants64(k: seq<Word64>, t: nat)
    requires Constants(k, t, ROUND_CONSTANTS4)
    ensures |k| >= t + 16
    ensures k[t] == 0xca273eceea26619c && k[t + 1] == 0xd186b8c721c0c207
    ensures k[t + 2] == 0xeada7dd6cde0eb1e && k[t + 3] == 0xf57d4f7fee6ed178
    ensures k[t + 4] == 0x06f067aa72176fba && k[t + 5] == 0x0a637dc5a2c898a6
    ensures k[t + 6] == 0x113f9804bef90dae && k[t + 7] == 0x1b710b35131c471b
  {
    var row := k[t..t + 16];
    assert k[t] == row[0] && k[t + 1] == row[1] && k[t + 2] == row[2] && k[t + 3] == row[3];
    assert k[t + 4] == row[4] && k[t + 5] == row[5] && k[t + 6] == row[6] && k[t + 7] == row[7];
  }

  lemma Through72(k: seq<Word64>, b: seq<Word64>, s: Regs, t: nat)
    requires |b| == 16 && Constants(k, t, ROUND_CONSTANTS4)
    requires Window(b, t,
                    0x5099c3add79f90ec, 0x5ea81d78e7660bf1, 0xebee6267405ac2a9, 0xb01f21926108a4ab,
                    0x786433dd2fe65556, 0xc54a6eaa24a0552c, 0xb3c8f1530bdbaa9e, 0xbb8abfe56f469338,
                    0xf63d4265cc1c5a78, 0xbe8355ea73129afb, 0x49e2db8ebdcfbeb5, 0x82269d4a883a3d99,
                    0xfdf53df3011f362b, 0x464af5671d71c12e, 0xe449b68198ec611c, 0x92aeeed1a7bcf7d2)
    requires Rounds(k, b, s, t) == AFTER64
    ensures Rounds(k, b, s, t + 8) == AFTER72
  {
    hide Round, Rounds, Schedule, Constants,
         AFTER64, AFTER65, AFTER66, AFTER67, AFTER68, AFTER69, AFTER70, AFTER71, AFTER72;
    Rounds64();
    Constants64(k, t);
    NextRound(k, b, s, t, AFTER64, 0xca273eceea26619c, 0x5099c3add79f90ec);
    NextRound(k, b, s, t + 1, AFTER65, 0xd186b8c721c0c207, 0x5ea81d78e7660bf1);
    NextRound(k, b, s, t + 2, AFTER66, 0xeada7dd6cde0eb1e, 0xebee6267405ac2a9);
    NextRound(k, b, s, t + 3, AFTER67, 0xf57d4f7fee6ed178, 0xb01f21926108a4ab);
    NextRound(k, b, s, t + 4, AFTER68, 0x06f067aa72176fba, 0x786433dd2fe65556);
    NextRound(k, b, s, t + 5, AFTER69, 0x0a637dc5a2c898a6, 0xc54a6eaa24a0552c);
    NextRound(k, b, s, t + 6, AFTER70, 0x113f9804bef90dae, 0xb3c8f1530bdbaa9e);
    NextRound(k, b, s, t + 7, AFTER71, 0x1b710b35131c471b, 0xbb8abfe56f469338);
  }

  lemma Constants72(k: seq<Word64>, t: nat)
    requires Constants(k, t, ROUND_CONSTANTS4)
    ensures |k| >= t + 16
    ensures k[t + 8] == 0x28db77f523047d84 && k[t + 9] == 0x32caab7b40c72493
    ensures k[t + 10] == 0x3c9ebe0a15c9bebc && k[t + 11] == 0x431d67c49c100d4c
    ensures k[t + 12] == 0x4cc5d4becb3e42b6 && k[t + 13] == 0x597f299cfc657e2a
    ensures k[t + 14] == 0x5fcb6fab3ad6faec && k[t + 15] == 0x6c44198c4a475817
  {
    var row := k[t..t + 16];
    assert k[t + 8] == row[8] && k[t + 9] == row[9] && k[t + 10] == row[10] && k[t + 11] == row[11];
    assert k[t + 12] == row[12] && k[t + 13] == row[13] && k[t + 14] == row[14] && k[t + 15] == row[15];
  }

  lemma Through80(k: seq<Word64>, b: seq<Word64>, s: Regs, t: nat)
    requires |b| == 16 && Constants(k, t, ROUND_CONSTANTS4)
    requires Window(b, t,
                    0x5099c3add79f90ec, 0x5ea81d78e7660bf1, 0xebee6267405ac2a9, 0xb01f21926108a4ab,
                    0x786433dd2fe65556, 0xc54a6eaa24a0552c, 0xb3c8f1530bdbaa9e, 0xbb8abfe56f469338,
                    0xf63d4265cc1c5a78, 0xbe8355ea73129afb, 0x49e2db8ebdcfbeb5, 0x82269d4a883a3d99,
                    0xfdf53df3011f362b, 0x464af5671d71c12e, 0xe449b68198ec611c, 0x92aeeed1a7bcf7d2)
    requires Rounds(k, b, s, t + 8) == AFTER72
    ensures Rounds(k, b, s, t + 16) == AFTER80
  {
    hide Round, Rounds, Schedule, Constants,
         AFTER72, AFTER73, AFTER74, AFTER75, AFTER76, AFTER77, AFTER78, AFTER79, AFTER80;
    Rounds72();
    Constants72(k, t);
    NextRound(k, b, s, t + 8, AFTER72, 0x28db77f523047d84, 0xf63d4265cc1c5a78);
    NextRound(k, b, s, t + 9, AFTER73, 0x32caab7b40c72493, 0xbe8355ea73129afb);
    NextRound(k, b, s, t + 10, AFTER74, 0x3c9ebe0a15c9bebc, 0x49e2db8ebdcfbeb5);
    NextRound(k, b, s, t + 11, AFTER75, 0x431d67c49c100d4c, 0x82269d4a883a3d99);
    NextRound(k, b, s, t + 12, AFTER76, 0x4cc5d4becb3e42b6, 0xfdf53df3011f362b);
    NextRound(k, b, s, t + 13, AFTER77, 0x597f299cfc657e2a, 0x464af5671d71c12e);
    NextRound(k, b, s, t + 14, AFTER78, 0x5fcb6fab3ad6faec, 0xe449b68198ec611c);
    NextRound(k, b, s, t + 15, AFTER79, 0x6c44198c4a475817, 0x92aeeed1a7bcf7d2);
  }

  lemma AllRounds(k: seq<Word64>, b: seq<Word64>)
    requires k == K512 && b == BLOCK
    ensures |k| == 80 && Rounds(k, b, AFTER0, 80) == AFTER80
  {
    hide Rounds, Window, Constants, K512, BLOCK, AFTER0, AFTER80;
    AllConstants();
    KLength();
    BlockLength();
    NoRounds(k, b, AFTER0);
    Words0(b);
    Through8(k, b, AFTER0, 0);
    Through16(k, b, AFTER0, 0);
    Words16(b, 0);
    Through24(k, b, AFTER0, 16);
    Through32(k, b, AFTER0, 16);
    Words32(b, 16);
    Through40(k, b, AFTER0, 32);
    Through48(k, b, AFTER0, 32);
    Words48(b, 32);
    Through56(k, b, AFTER0, 48);
    Through64(k, b, AFTER0, 48);
    Words64(b, 48);
    Through72(k, b, AFTER0, 64);
    Through80(k, b, AFTER0, 64);
  }

  lemma KLength()
    ensures |K512| == 80
  {
    hide ROUND_CONSTANTS0, ROUND_CONSTANTS1, ROUND_CONSTANTS2, ROUND_CONSTANTS3, ROUND_CONSTANTS4;
    RowLengths();
  }

  // ---------------------------------------------------------------- the digest

  const STATE: seq<Word64> := [
    0xddaf35a193617aba, 0xcc417349ae204131, 0x12e6fa4e89a97ea2, 0x0a9eeee64b55d39a,
    0x2192992a274fc1a8, 0x36ba3c23a3feebbd, 0x454d4423643ce80e, 0x2a9ac94fa54ca49f
  ]

  lemma Compressed()
    ensures |K512| == 80 && Compress(K512, INITIAL_HASH_VALUE, BLOCK) == STATE
  {
    hide Rounds, K512;
    AllRounds(K512, BLOCK);
    assert ToRegs(INITIAL_HASH_VALUE) == AFTER0;
  }

  lemma StateBytes()
    ensures DigestBytes(STATE) == DIGEST
  {
    hide BigBytes;
    StateWords();
  }

  lemma StateWords()
    ensures BigBytes(STATE[0]) == [0xdd, 0xaf, 0x35, 0xa1, 0x93, 0x61, 0x7a, 0xba]
    ensures BigBytes(STATE[1]) == [0xcc, 0x41, 0x73, 0x49, 0xae, 0x20, 0x41, 0x31]
    ensures BigBytes(STATE[2]) == [0x12, 0xe6, 0xfa, 0x4e, 0x89, 0xa9, 0x7e, 0xa2]
    ensures BigBytes(STATE[3]) == [0x0a, 0x9e, 0xee, 0xe6, 0x4b, 0x55, 0xd3, 0x9a]
    ensures BigBytes(STATE[4]) == [0x21, 0x92, 0x99, 0x2a, 0x27, 0x4f, 0xc1, 0xa8]
    ensures BigBytes(STATE[5]) == [0x36, 0xba, 0x3c, 0x23, 0xa3, 0xfe, 0xeb, 0xbd]
    ensures BigBytes(STATE[6]) == [0x45, 0x4d, 0x44, 0x23, 0x64, 0x3c, 0xe8, 0x0e]
    ensures BigBytes(STATE[7]) == [0x2a, 0x9a, 0xc9, 0x4f, 0xa5, 0x4c, 0xa4, 0x9f]
  {
  }

  /** SHA-512 of "abc", with the constants of the program. */
  lemma AbcDigest()
    ensures Sha512Params().Valid() && Sha512(Sha512Params(), MESSAGE) == DIGEST
  {
    hide Compress, BlockOf, Pad, DigestBytes, K512;
    ParamsValid();
    Padded();
    Compressed();
    StateBytes();
    var s := Pad(MESSAGE);
    assert [] + s == s;
    HashOneMore(Sha512Params(), [], s);
  }
}
