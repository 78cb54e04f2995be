/**
 What fixes the constants of BLAKE2b: where the initialization vector comes from, that each row of the
 schedule is a permutation, and two digests taken through every half round. The first is appendix A of
 RFC 7693; the second has a key, two blocks, and sixteen different message words.
 */
module Vectors {
  import opened Machine
  import opened LittleEndian
  import opened Blake2
  import opened Blake2Avx2
  import opened Blake2Stream

  // ---------------------------------------------------------------------------
  // Constants
  // ---------------------------------------------------------------------------

  const PRIMES: seq<nat> := [2, 3, 5, 7, 11, 13, 17, 19]

  /** `r` is the integer part of the square root of `p`, with 64 bits of fraction. */
  predicate IsRoot(r: nat, p: nat) {
    r * r <= p * 0x1_0000_0000_0000_0000_0000_0000_0000_0000 < (r + 1) * (r + 1)
  }

  lemma Root2()
    ensures IsRoot(0x1_6a09e667f3bcc908, 2) && ToNumber(IV[0]) == 0x6a09e667f3bcc908
  {
  }

  lemma Root3()
    ensures IsRoot(0x1_bb67ae8584caa73b, 3) && ToNumber(IV[1]) == 0xbb67ae8584caa73b
  {
  }

  lemma Root5()
    ensures IsRoot(0x2_3c6ef372fe94f82b, 5) && ToNumber(IV[2]) == 0x3c6ef372fe94f82b
  {
  }

  lemma Root7()
    ensures IsRoot(0x2_a54ff53a5f1d36f1, 7) && ToNumber(IV[3]) == 0xa54ff53a5f1d36f1
  {
  }

  lemma Root11()
    ensures IsRoot(0x3_510e527fade682d1, 11) && ToNumber(IV[4]) == 0x510e527fade682d1
  {
  }

  lemma Root13()
    ensures IsRoot(0x3_9b05688c2b3e6c1f, 13) && ToNumber(IV[5]) == 0x9b05688c2b3e6c1f
  {
  }

  lemma Root17()
    ensures IsRoot(0x4_1f83d9abfb41bd6b, 17) && ToNumber(IV[6]) == 0x1f83d9abfb41bd6b
  {
  }

  lemma Root19()
    ensures IsRoot(0x4_5be0cd19137e2179, 19) && ToNumber(IV[7]) == 0x5be0cd19137e2179
  {
  }

  /** Section 2.6 of RFC 7693: the fractions of the square roots of the first eight primes. */
  lemma InitializationVector(i: nat) returns (k: nat)
    requires i < 8
    ensures IsRoot(k * 0x1_0000_0000_0000_0000 + ToNumber(IV[i]), PRIMES[i])
  {
    hide IsRoot, ToNumber;
    Root2();
    Root3();
    Root5();
    Root7();
    Root11();
    Root13();
    Root17();
    Root19();
    k := if i <= 1 then 1 else if i <= 3 then 2 else if i <= 5 then 3 else 4;
  }

  /** Where each message word is in a row of the schedule. */
  predicate Inverts(s: Schedule, t: Schedule) {
    && (t[s[0]] == 0 && t[s[1]] == 1 && t[s[2]] == 2 && t[s[3]] == 3)
    && (t[s[4]] == 4 && t[s[5]] == 5 && t[s[6]] == 6 && t[s[7]] == 7)
    && (t[s[8]] == 8 && t[s[9]] == 9 && t[s[10]] == 10 && t[s[11]] == 11)
    && (t[s[12]] == 12 && t[s[13]] == 13 && t[s[14]] == 14 && t[s[15]] == 15)
  }

  lemma InverseIsUnique(s: Schedule, t: Schedule)
    requires Inverts(s, t)
    ensures forall i, j :: 0 <= i < j < 16 ==> s[i] != s[j]
  {
    forall i | 0 <= i < 16
      ensures t[s[i]] == i
    {
    }
    hide Inverts;
  }

  lemma Sigma0() returns (t: Schedule)
    ensures Inverts(SIGMA_0, t)
  {
    t := [0, 1, 2, 3, 4, 5, 6, 7, 8, 9, 10, 11, 12, 13, 14, 15];
  }

  lemma Sigma1() returns (t: Schedule)
    ensures Inverts(SIGMA_1, t)
  {
    t := [10, 8, 11, 15, 2, 14, 7, 13, 3, 4, 1, 12, 9, 6, 0, 5];
  }

  lemma Sigma2() returns (t: Schedule)
    ensures Inverts(SIGMA_2, t)
  {
    t := [3, 13, 5, 10, 15, 4, 11, 12, 1, 14, 8, 0, 2, 7, 9, 6];
  }

  lemma Sigma3() returns (t: Schedule)
    ensures Inverts(SIGMA_3, t)
  {
    t := [13, 3, 8, 2, 12, 10, 9, 0, 15, 1, 11, 6, 5, 4, 7, 14];
  }

  lemma Sigma4() returns (t: Schedule)
    ensures Inverts(SIGMA_4, t)
  {
    t := [1, 9, 4, 14, 5, 2, 12, 3, 13, 0, 6, 10, 11, 15, 8, 7];
  }

  lemma Sigma5() returns (t: Schedule)
    ensures Inverts(SIGMA_5, t)
  {
    t := [4, 14, 0, 7, 8, 11, 2, 10, 6, 15, 3, 5, 1, 9, 13, 12];
  }

  lemma Sigma6() returns (t: Schedule)
    ensures Inverts(SIGMA_6, t)
  {
    t := [8, 2, 13, 11, 6, 1, 10, 9, 14, 12, 7, 15, 0, 5, 4, 3];
  }

  lemma Sigma7() returns (t: Schedule)
    ensures Inverts(SIGMA_7, t)
  {
    t := [9, 5, 14, 6, 11, 8, 13, 2, 12, 7, 15, 1, 4, 0, 3, 10];
  }

  lemma Sigma8() returns (t: Schedule)
    ensures Inverts(SIGMA_8, t)
  {
    t := [6, 12, 9, 5, 13, 15, 0, 11, 7, 3, 14, 4, 8, 10, 2, 1];
  }

  lemma Sigma9() returns (t: Schedule)
    ensures Inverts(SIGMA_9, t)
  {
    t := [15, 6, 1, 12, 3, 7, 5, 4, 2, 10, 0, 9, 13, 14, 11, 8];
  }

  /** Section 2.7 of RFC 7693: every message word is used once in each round. */
  lemma SigmaIsPermutation(r: nat)
    requires r < 12
    ensures forall i, j :: 0 <= i < j < 16 ==> Sigma(r)[i] != Sigma(r)[j]
  {
    hide Inverts;
    var t: Schedule;
    if r == 0 || r == 10 {
      t := Sigma0();
    } else if r == 1 || r == 11 {
      t := Sigma1();
    } else if r == 2 {
      t := Sigma2();
    } else if r == 3 {
      t := Sigma3();
    } else if r == 4 {
      t := Sigma4();
    } else if r == 5 {
      t := Sigma5();
    } else if r == 6 {
      t := Sigma6();
    } else if r == 7 {
      t := Sigma7();
    } else if r == 8 {
      t := Sigma8();
    } else {
      t := Sigma9();
    }
    InverseIsUnique(Sigma(r), t);
  }

  // ---------------------------------------------------------------------------
  // Rounds on rows
  // ---------------------------------------------------------------------------

  /** The rows turned so that the diagonals are columns. */
  function Turned(r: Rows): Rows {
    Rows(r.a, Row(r.b.w1, r.b.w2, r.b.w3, r.b.w0), Row(r.c.w2, r.c.w3, r.c.w0, r.c.w1),
         Row(r.d.w3, r.d.w0, r.d.w1, r.d.w2))
  }

  /** Half a round: the columns, or the diagonals. */
  predicate ColumnsTake(r: Rows, m: seq<Word>, s: Schedule, r': Rows)
    requires |m| == 16
  {
    MixedBy(r, ColumnX(m, s), ColumnY(m, s), r')
  }

  predicate DiagonalsTake(r: Rows, m: seq<Word>, s: Schedule, r': Rows)
    requires |m| == 16
  {
    MixedBy(Turned(r), DiagonalX(m, s), DiagonalY(m, s), Turned(r'))
  }

  lemma RoundTakes(v: seq<Word>, m: seq<Word>, s: Schedule, r: Rows, half: Rows, r': Rows)
    requires |v| == 16 && |m| == 16 && Holds(r, v) && ColumnsTake(r, m, s, half) && DiagonalsTake(half, m, s, r')
    ensures Holds(r', Diagonals(Columns(v, m, s), m, s))
  {
    hide MixedBy, Columns, Diagonals;
    ColumnsAreRows(r, v, m, s, half);
    DiagonalsAreRows(Turned(half), Columns(v, m, s), m, s, Turned(r'));
  }

  lemma NoRounds(v: seq<Word>, m: seq<Word>)
    requires |v| == 16 && |m| == 16
    ensures Rounds(v, m, 0) == v
  {
  }

  lemma OneRound(v: seq<Word>, m: seq<Word>, k: nat, r: Rows, half: Rows, r': Rows)
    requires |v| == 16 && |m| == 16 && k < 12 && Holds(r, Rounds(v, m, k))
    requires ColumnsTake(r, m, Sigma(k), half) && DiagonalsTake(half, m, Sigma(k), r')
    ensures Holds(r', Rounds(v, m, k + 1))
  {
    hide ColumnsTake, DiagonalsTake, Columns, Diagonals, Holds, Sigma;
    RoundTakes(Rounds(v, m, k), m, Sigma(k), r, half, r');
  }

  // ---------------------------------------------------------------------------
  // The digest of "abc"
  // ---------------------------------------------------------------------------

  predicate IsAbc(m: seq<Word>) {
    && |m| == 16
    && m[0] == W(0x0000000000636261) && m[1] == W(0x0000000000000000)
    && m[2] == W(0x0000000000000000) && m[3] == W(0x0000000000000000)
    && m[4] == W(0x0000000000000000) && m[5] == W(0x0000000000000000)
    && m[6] == W(0x0000000000000000) && m[7] == W(0x0000000000000000)
    && m[8] == W(0x0000000000000000) && m[9] == W(0x0000000000000000)
    && m[10] == W(0x0000000000000000) && m[11] == W(0x0000000000000000)
    && m[12] == W(0x0000000000000000) && m[13] == W(0x0000000000000000)
    && m[14] == W(0x0000000000000000) && m[15] == W(0x0000000000000000)
  }

  const A0: Rows := Rows(
    Row(W(0x6a09e667f2bdc948), W(0xbb67ae8584caa73b), W(0x3c6ef372fe94f82b), W(0xa54ff53a5f1d36f1)),
    Row(W(0x510e527fade682d1), W(0x9b05688c2b3e6c1f), W(0x1f83d9abfb41bd6b), W(0x5be0cd19137e2179)),
    Row(W(0x6a09e667f3bcc908), W(0xbb67ae8584caa73b), W(0x3c6ef372fe94f82b), W(0xa54ff53a5f1d36f1)),
    Row(W(0x510e527fade682d2), W(0x9b05688c2b3e6c1f), W(0xe07c265404be4294), W(0x5be0cd19137e2179)))

  const A0_HALF: Rows := Rows(
    Row(W(0xf0c9aa0f86491dea), W(0x63b7dedf4a4e5ad3), W(0xbe50eb454e0a93d7), W(0x949804b0483ead14)),
    Row(W(0xb7defc3d0277e11f), W(0xed49c30cd311d50e), W(0xa056671704b00d71), W(0x75e6432fc4661b06)),
    Row(W(0xee5e0f39647a9fff), W(0x7bee264bf3cdadfe), W(0xb2752dadd66bd8f9), W(0xa99463cb37905929)),
    Row(W(0x7772fc2886a76c5f), W(0x254ef880a19a8726), W(0x789d43381c47f584), W(0xa25ef57d7da312ee)))

  const A1: Rows := Rows(
    Row(W(0x86b7c1568029bb79), W(0xc12cbcc809ff59f3), W(0xc6a5214cc0eaca8e), W(0x0c87cd524c14cc5d)),
    Row(W(0x44ee6039bd86a9f7), W(0xa447c850aa694a7e), W(0xde080f1bb1c0f84b), W(0x595cb8a9a1aca66c)),
    Row(W(0xbec3ae837eac4887), W(0x6267fc79df9d6ad1), W(0xfa87b01273fa6dbe), W(0x521a715c63e08d8a)),
    Row(W(0xe02d0975b8d37a83), W(0x1c7b754f08b7d193), W(0x8f885a76b6e578fe), W(0x2318a24e2140fc64)))

  lemma AbcColumns0(m: seq<Word>)
    requires IsAbc(m)
    ensures ColumnsTake(A0, m, SIGMA_0, A0_HALF)
  {
  }

  lemma AbcDiagonals0(m: seq<Word>)
    requires IsAbc(m)
    ensures DiagonalsTake(A0_HALF, m, SIGMA_0, A1)
  {
  }

  const A1_HALF: Rows := Rows(
    Row(W(0x7d7ebc91065eb487), W(0x2985dbd3b522b163), W(0x83dcc7c95110e507), W(0xd5f7d943ae7a12d4)),
    Row(W(0xa2a2bb290a6fa0ac), W(0x48daa2180cca574f), W(0x25804d5986d6e07f), W(0x47dc958f84e67b9c)),
    Row(W(0xe089c6944d999f41), W(0x607c07b706df2755), W(0x4defb1cc1d0e5211), W(0x53fd198002cb9dc5)),
    Row(W(0x9c62f81da3622dd5), W(0x4134955aae31cc2d), W(0x8f1947927dee7a35), W(0x3561197657eee886)))

  const A2: Rows := Rows(
    Row(W(0x53281e83806010f2), W(0x3594b403f81b4393), W(0x8cd63c7462de0dff), W(0x85f693f3da53f974)),
    Row(W(0xbaabdbb2f386d9ae), W(0xca5425aec65a10a8), W(0xc6a22e2ff0f7aa48), W(0xc6a56a51cb89c595)),
    Row(W(0x224e6a3369224f96), W(0x500e125e58a92923), W(0xe9e4ad0d0e1a0d48), W(0x85df9dc143c59a74)),
    Row(W(0x92a3aaaa6d952b7f), W(0xc5fdf71090fae853), W(0x2a8a40f15a462dd0), W(0x572d17effdd37358)))

  lemma AbcColumns1(m: seq<Word>)
    requires IsAbc(m)
    ensures ColumnsTake(A1, m, SIGMA_1, A1_HALF)
  {
  }

  lemma AbcDiagonals1(m: seq<Word>)
    requires IsAbc(m)
    ensures DiagonalsTake(A1_HALF, m, SIGMA_1, A2)
  {
  }

  const A2_HALF: Rows := Rows(
    Row(W(0x224d9730ddde8c9b), W(0xe430476788c41ef0), W(0x4f163fda2e4243bf), W(0x41dd8960f0de029d)),
    Row(W(0x1161e9566cec8636), W(0x956fe864884ac584), W(0x4dfeb83fd06a086b), W(0x78c811fddf5c5824)),
    Row(W(0x1cc968515f81e2e0), W(0xaef099868dce0a96), W(0x5d62892a32598f4d), W(0xc92583e5a4ae6f86)),
    Row(W(0xdc073c3e56ef42ae), W(0x3052cabffb0fb2d1), W(0x69ea4685aa4d57b0), W(0xeb3719d34531eb68)))

  const A3: Rows := Rows(
    Row(W(0x60ed96aa7ad41725), W(0xe46a743c71800b9d), W(0x1a04b543a01f156b), W(0xa2f8716e775c4877)),
    Row(W(0xda0a61bcde4267ea), W(0xb1dd230754d7bdee), W(0x25a1422779e06d14), W(0xe6823ae4c3ff58a5)),
    Row(W(0xa1677e19f37fd5da), W(0x22bdce6976b08c51), W(0xf1de8696bec11bf1), W(0xa0ebd586a4a1d2c8)),
    Row(W(0xc804ebab11c99fa9), W(0x8e0cec959c715793), W(0x7c45557fae0d4d89), W(0x716343f52fdd265e)))

  lemma AbcColumns2(m: seq<Word>)
    requires IsAbc(m)
    ensures ColumnsTake(A2, m, SIGMA_2, A2_HALF)
  {
  }

  lemma AbcDiagonals2(m: seq<Word>)
    requires IsAbc(m)
    ensures DiagonalsTake(A2_HALF, m, SIGMA_2, A3)
  {
  }

  const A3_HALF: Rows := Rows(
    Row(W(0x6b864497a655fb47), W(0xc1fd6110ffa75065), W(0x817908f78a142cfa), W(0xce1577a72bc1ce7b)),
    Row(W(0xc4b99c558f3684e9), W(0x065b83216e96ed93), W(0xf2d93929736e5b04), W(0x2795f81cfb8f7633)),
    Row(W(0xd2d2821a8aa43e4c), W(0xa898085d8e04f013), W(0x38bf8d18c9a387f9), W(0xd750375d8da19646)),
    Row(W(0xe88b2359a43154a6), W(0x2bb39bdbff08e7ec), W(0x8eee368bc701c9f4), W(0x21ddda93f0e5d3d8)))

  const A4: Rows := Rows(
    Row(W(0xbb2a77d3a8382351), W(0x45eb47971f23b103), W(0x98be297f6e45c684), W(0xa36077dee3370b89)),
    Row(W(0x8a03c4cb7e97590a), W(0x24192e49ebf54ea0), W(0x4f82c9401cb32d7a), W(0x8ccd013726420dc4)),
    Row(W(0xa9c9a8f17b1fc614), W(0x55908187977514a0), W(0x5b44273e66b19d27), W(0xb6d5c9fca2579327)),
    Row(W(0x086092cfb858437e), W(0x5c4be2156dbeecf9), W(0x2efede99ed4eff16), W(0x3e7b5f234cd1f804)))

  lemma AbcColumns3(m: seq<Word>)
    requires IsAbc(m)
    ensures ColumnsTake(A3, m, SIGMA_3, A3_HALF)
  {
  }

  lemma AbcDiagonals3(m: seq<Word>)
    requires IsAbc(m)
    ensures DiagonalsTake(A3_HALF, m, SIGMA_3, A4)
  {
  }

  const A4_HALF: Rows := Rows(
    Row(W(0x3e5bab618a5fbc72), W(0x9be6aa793ad3a7c9), W(0xc5252a4d03f65b2f), W(0x1fe21186bd238be3)),
    Row(W(0x475dcc427f3fcd87), W(0xbb2d4d7552ba222d), W(0xcdcfc26e59d1d349), W(0x8bc33bc025ae3c8e)),
    Row(W(0x5a8388e35cb33b75), W(0xec74922286e7b930), W(0x3a03d6ba54158e95), W(0xaa550590a17d6cd1)),
    Row(W(0x1222a0cc9444c711), W(0x303dfd40b9230c9c), W(0x7709a29326a5c548), W(0xadd65a4af0cfb375)))

  const A5: Rows := Rows(
    Row(W(0xc79c15b3d423b099), W(0x2da2224e8da97556), W(0x77d2b26df1c45c55), W(0x8934eb09a3456052)),
    Row(W(0x0f6d9eeed157da2a), W(0x6fe66467af88c0a9), W(0x4eb0b76284c7aafb), W(0x299c8e725d954697)),
    Row(W(0xb2240b59e6d567d3), W(0x2643c2370e49ebfd), W(0x79e02eef20cdb1ae), W(0x64b3eed7bb602f39)),
    Row(W(0xb97d2d439e4df63d), W(0xc718e755294c9111), W(0x1f0893f2772bb373), W(0x1205ea4a7859807d)))

  lemma AbcColumns4(m: seq<Word>)
    requires IsAbc(m)
    ensures ColumnsTake(A4, m, SIGMA_4, A4_HALF)
  {
  }

  lemma AbcDiagonals4(m: seq<Word>)
    requires IsAbc(m)
    ensures DiagonalsTake(A4_HALF, m, SIGMA_4, A5)
  {
  }

  const A5_HALF: Rows := Rows(
    Row(W(0xf4e55384dc924147), W(0xf015d00b613578c6), W(0x648495058cae3d2f), W(0x54567270ac75c4ea)),
    Row(W(0xb7b58d9367a4043d), W(0x02ca058bf3799684), W(0xb9668b8ebf3fa717), W(0x292f756a3507a223)),
    Row(W(0xc601582b84c4b49a), W(0x53e84b90ddbf8985), W(0x42b26ef24a2100f5), W(0x35134241b118cf10)),
    Row(W(0xd8a6cfd32f7ab2e6), W(0x1925e46b74e53ba5), W(0xc70d65404fc75525), W(0x57dc2cd554e40ca1)))

  const A6: Rows := Rows(
    Row(W(0xe58f97d6385baee4), W(0x7640aa9764da137a), W(0xdeb4c7c23efe287e), W(0x70f6f41c8783c9f6)),
    Row(W(0x7127cd48c76a7708), W(0x9e472af0be3db3f6), W(0x0f244c62ddf71788), W(0x219828aa83880842)),
    Row(W(0x41cca9073c8c4d0d), W(0x5c7912bc10df3b4b), W(0xa2c3abbd37510ee2), W(0xcb5668cc2a9f7859)),
    Row(W(0x8733794f07ac1500), W(0xc67a6be42335aa6f), W(0xacb22b28681e4c82), W(0xdb2161604cbc9828)))

  lemma AbcColumns5(m: seq<Word>)
    requires IsAbc(m)
    ensures ColumnsTake(A5, m, SIGMA_5, A5_HALF)
  {
  }

  lemma AbcDiagonals5(m: seq<Word>)
    requires IsAbc(m)
    ensures DiagonalsTake(A5_HALF, m, SIGMA_5, A6)
  {
  }

  const A6_HALF: Rows := Rows(
    Row(W(0xd0d5bb6a10dae2b5), W(0xf5d2174aff6cf2cd), W(0x39337b3da7e963ab), W(0x588d5ef9a0a6492f)),
    Row(W(0x860aa9f111072cea), W(0x90ee681d04ce182a), W(0x7e1ec202f5042fa8), W(0x04d72048395b53ff)),
    Row(W(0x391b02b399972abc), W(0xa93d75cc5e322748), W(0x74550619f0763471), W(0x4795d2168937df08)),
    Row(W(0xfee428bf8b86c15e), W(0x4ca1f5f07a552d91), W(0x5ca64dd877b9e682), W(0x34881f3a14e9e908)))

  const A7: Rows := Rows(
    Row(W(0x6e2d286eeadedc81), W(0xbcf02c0787e86358), W(0x57d56a56dd015edf), W(0x55d899d40a5d0d0a)),
    Row(W(0x819415b56220c459), W(0xb63c479a6a769f02), W(0x258e55e0ec1f362a), W(0x3a3b4ec60e19dfdc)),
    Row(W(0x04d769b3fcb048db), W(0xb78a9a33e9bff4dd), W(0x5777272ae1e930c0), W(0x5a387849e578dbf6)),
    Row(W(0x92aac307cf2c0afc), W(0x30aaccc4f06dafaa), W(0x483893cc094f8863), W(0xe03c6cc89c26bf92)))

  lemma AbcColumns6(m: seq<Word>)
    requires IsAbc(m)
    ensures ColumnsTake(A6, m, SIGMA_6, A6_HALF)
  {
  }

  lemma AbcDiagonals6(m: seq<Word>)
    requires IsAbc(m)
    ensures DiagonalsTake(A6_HALF, m, SIGMA_6, A7)
  {
  }

  const A7_HALF: Rows := Rows(
    Row(W(0x2c42e52d8c060ff2), W(0xa357b3b1736ec0a1), W(0xd916516a31320b04), W(0x41d37d7ecbfc6541)),
    Row(W(0x8ffac8c5ec5cb0e6), W(0x1355530d9510b6da), W(0x56af9e7816abf9be), W(0x1c460b4a606cc880)),
    Row(W(0x7b7cc36bc928376b), W(0x3981e9894b87e52a), W(0x70e55e0e63448924), W(0xbf9c914183b31c1b)),
    Row(W(0xf2d1af914f0bf16d), W(0x7fc4a1651e4130e8), W(0x58ff19794c000469), W(0xe113c5832e0abbd3)))

  const A8: Rows := Rows(
    Row(W(0xffc83ece76024d01), W(0x1be7bffb8c5cc5f9), W(0xa35a18cbac4c65b7), W(0xb7c2c7e6d88c285f)),
    Row(W(0x81937da314a50838), W(0xe1179523a2541963), W(0x3a1fad7106232b8f), W(0x1c7ede92ab8b9c46)),
    Row(W(0xa3c2d35e4f685c10), W(0xa53d3f73aa619624), W(0x30bbcc0285a22f65), W(0xbcefbb6a81539e5d)),
    Row(W(0x3841def6f4c9848a), W(0x98662c85fba726d4), W(0x7762439bd5a851bd), W(0xb0b9f0d443d1a889)))

  lemma AbcColumns7(m: seq<Word>)
    requires IsAbc(m)
    ensures ColumnsTake(A7, m, SIGMA_7, A7_HALF)
  {
  }

  lemma AbcDiagonals7(m: seq<Word>)
    requires IsAbc(m)
    ensures DiagonalsTake(A7_HALF, m, SIGMA_7, A8)
  {
  }

  const A8_HALF: Rows := Rows(
    Row(W(0xa9126c152d800655), W(0xac1632ba715ebf08), W(0x7c1849df4e91206f), W(0x94aaf312690f9253)),
    Row(W(0x4165a65ac9e3c45b), W(0xdfe2d8cd3101f453), W(0x41aa56fe49862d7f), W(0x13e3a2c50cfad099)),
    Row(W(0x87047c8ec6295331), W(0x40e7b1fdda2d2585), W(0x3e4ba8ddb8e29996), W(0x49989dfa62e90301)),
    Row(W(0x64d2d77cbda6949a), W(0xc6927901cb3215c7), W(0xa5c81bdf8924e48a), W(0xc4fe53007c9d0df7)))

  const A9: Rows := Rows(
    Row(W(0x753a70a1e8faeadd), W(0x6b0d43ca2c25d629), W(0xf8343ba8b94f8c0b), W(0xbc7d062b0db5cf35)),
    Row(W(0x58540ee1b1aebc47), W(0x63c5b9b80d294cb9), W(0x490870ecad27debd), W(0xb2a90ddf667287fe)),
    Row(W(0x316cc9ebeefad8fc), W(0x4a466bcd021526a4), W(0x5da7f7638cec5669), W(0xd9c8826727d306fc)),
    Row(W(0x88ed6c4f3bd7a537), W(0x19ae688ddf67f026), W(0x4d8707aab40f7e6d), W(0xfd3f572687fea4f1)))

  lemma AbcColumns8(m: seq<Word>)
    requires IsAbc(m)
    ensures ColumnsTake(A8, m, SIGMA_8, A8_HALF)
  {
  }

  lemma AbcDiagonals8(m: seq<Word>)
    requires IsAbc(m)
    ensures DiagonalsTake(A8_HALF, m, SIGMA_8, A9)
  {
  }

  const A9_HALF: Rows := Rows(
    Row(W(0xc0df0f0e596ec5a9), W(0x87ca07d5e3d64cb6), W(0xd11bc20e8ef44efc), W(0x0df3ea89aaa44e12)),
    Row(W(0xb4014455ff7c2ca0), W(0x65bf544e084bb313), W(0x3478342ab05ecf87), W(0x88274463ca98e874)),
    Row(W(0xa9502da0417b08d5), W(0x0a28a074aea2f05d), W(0x15e30f6c705383f7), W(0xdade744ed33782e5)),
    Row(W(0xd66561a10d1d1c0d), W(0xd9b961e2d51134aa), W(0xe5c30363d6ab824f), W(0x0d3efe25194b38bd)))

  const A10: Rows := Rows(
    Row(W(0xe630c747ccd59c4f), W(0xbc713d41127571ca), W(0x46db183025025078), W(0x6727e81260610140)),
    Row(W(0x2d04185eac2a8cba), W(0x5f311b88904056ec), W(0x40bd313009201aab), W(0x0099d4f82a2a1eab)),
    Row(W(0x6dd4fbc1de60165d), W(0xb3b0b51de3c86270), W(0x900aee2f233b08e5), W(0xa07199d87ad058d8)),
    Row(W(0x2c6b25593d717852), W(0x37e8ca471beaa5f8), W(0x2cfc1bac10ef4457), W(0x01369ec18746e775)))

  lemma AbcColumns9(m: seq<Word>)
    requires IsAbc(m)
    ensures ColumnsTake(A9, m, SIGMA_9, A9_HALF)
  {
  }

  lemma AbcDiagonals9(m: seq<Word>)
    requires IsAbc(m)
    ensures DiagonalsTake(A9_HALF, m, SIGMA_9, A10)
  {
  }

  const A10_HALF: Rows := Rows(
    Row(W(0xfdd2c6435d5a301b), W(0x6e446afbc3efad36), W(0x46d963ee934efeea), W(0x5523c5b930d1aeb6)),
    Row(W(0x2ca29c4d619bafa1), W(0xfcd5d76a6de20047), W(0x8b7f1e6cfc2a0039), W(0xadbdc7977150b805)),
    Row(W(0x7ccca8ba533b7361), W(0xacc8f98717c8e4a3), W(0x7afe95b81b3993db), W(0x3bbceb651eeed2c9)),
    Row(W(0xcae4b9c0357b6205), W(0x3fb8d71b07b5efa5), W(0xac2678144c9a382a), W(0x8d7d58ee3d275626)))

  const A11: Rows := Rows(
    Row(W(0xe801f73b9768c760), W(0x35c6d22320be511d), W(0x306f27584f65495e), W(0xb51776adf569a77b)),
    Row(W(0xf4f1be86690b3c34), W(0x3cc88735d1475e4b), W(0x5dac67921ff76949), W(0x1cdb9d31ad70cc4e)),
    Row(W(0x35ba354a9c7df448), W(0x4929cbe45679d73e), W(0x733d1a17248f39db), W(0x92d57b736f5f170a)),
    Row(W(0x61b5c0a41d491399), W(0xb5c333457e12844a), W(0xbd696be010d0d889), W(0x02231e1a917fe0bd)))

  lemma AbcColumns10(m: seq<Word>)
    requires IsAbc(m)
    ensures ColumnsTake(A10, m, SIGMA_0, A10_HALF)
  {
  }

  lemma AbcDiagonals10(m: seq<Word>)
    requires IsAbc(m)
    ensures DiagonalsTake(A10_HALF, m, SIGMA_0, A11)
  {
  }

  const A11_HALF: Rows := Rows(
    Row(W(0xac495068076fe1c4), W(0xf3ae6a427a75e234), W(0x83933b99d54089ee), W(0x31db95ba436e4db7)),
    Row(W(0x5198d8d539a3fbce), W(0xb8eacc53aead98b1), W(0x55b2599798b3a4a1), W(0xb20b2179d2dcd8c6)),
    Row(W(0xe799f6cc9a2a23d7), W(0x5d6a76c05f26fe94), W(0x5fae8064a9ba0517), W(0x06ed116649fdb58d)),
    Row(W(0x94a2b1744065ba29), W(0x88297fb94160bd39), W(0x6ce4fc1f51b7e632), W(0x4072027e06ce90be)))

  const A12: Rows := Rows(
    Row(W(0x12ef8a641ec4f6d6), W(0xbced5de977c9faf5), W(0x733ca476c5148639), W(0x97df596b0610f6fc)),
    Row(W(0xf42c16519ad5afa7), W(0xaa5ac1888e10467e), W(0x217d930aa51787f3), W(0x906a6ff19e573942)),
    Row(W(0x75ab709bd3dcbf24), W(0xee7ce1f345947aa4), W(0xf8960d6c2faf5f5e), W(0xe332538a36b6d246)),
    Row(W(0x885bef040ef6aa0b), W(0xa4939a417bfb78a3), W(0x646cbb7af6dce980), W(0xe813a23c60af3b82)))

  lemma AbcColumns11(m: seq<Word>)
    requires IsAbc(m)
    ensures ColumnsTake(A11, m, SIGMA_1, A11_HALF)
  {
  }

  lemma AbcDiagonals11(m: seq<Word>)
    requires IsAbc(m)
    ensures DiagonalsTake(A11_HALF, m, SIGMA_1, A12)
  {
  }

  lemma AbcFirstHalf(v: seq<Word>, m: seq<Word>)
    requires |v| == 16 && IsAbc(m) && Holds(A0, Rounds(v, m, 0))
    ensures Holds(A6, Rounds(v, m, 6))
  {
    hide IsAbc, ColumnsTake, DiagonalsTake, Columns, Diagonals, Rounds, Holds;
    assert |m| == 16 by { AbcLength(m); }
    AbcColumns0(m);
    AbcDiagonals0(m);
    OneRound(v, m, 0, A0, A0_HALF, A1);
    AbcColumns1(m);
    AbcDiagonals1(m);
    OneRound(v, m, 1, A1, A1_HALF, A2);
    AbcColumns2(m);
    AbcDiagonals2(m);
    OneRound(v, m, 2, A2, A2_HALF, A3);
    AbcColumns3(m);
    AbcDiagonals3(m);
    OneRound(v, m, 3, A3, A3_HALF, A4);
    AbcColumns4(m);
    AbcDiagonals4(m);
    OneRound(v, m, 4, A4, A4_HALF, A5);
    AbcColumns5(m);
    AbcDiagonals5(m);
    OneRound(v, m, 5, A5, A5_HALF, A6);
  }

  lemma AbcSecondHalf(v: seq<Word>, m: seq<Word>)
    requires |v| == 16 && IsAbc(m) && Holds(A6, Rounds(v, m, 6))
    ensures Holds(A12, Rounds(v, m, 12))
  {
    hide IsAbc, ColumnsTake, DiagonalsTake, Columns, Diagonals, Rounds, Holds;
    assert |m| == 16 by { AbcLength(m); }
    AbcColumns6(m);
    AbcDiagonals6(m);
    OneRound(v, m, 6, A6, A6_HALF, A7);
    AbcColumns7(m);
    AbcDiagonals7(m);
    OneRound(v, m, 7, A7, A7_HALF, A8);
    AbcColumns8(m);
    AbcDiagonals8(m);
    OneRound(v, m, 8, A8, A8_HALF, A9);
    AbcColumns9(m);
    AbcDiagonals9(m);
    OneRound(v, m, 9, A9, A9_HALF, A10);
    AbcColumns10(m);
    AbcDiagonals10(m);
    OneRound(v, m, 10, A10, A10_HALF, A11);
    AbcColumns11(m);
    AbcDiagonals11(m);
    OneRound(v, m, 11, A11, A11_HALF, A12);
  }

  lemma AbcRounds(v: seq<Word>, m: seq<Word>)
    requires |v| == 16 && IsAbc(m) && Holds(A0, v)
    ensures Holds(A12, Rounds(v, m, 12))
  {
    hide IsAbc, Holds, Rounds;
    assert |m| == 16 by { AbcLength(m); }
    NoRounds(v, m);
    AbcFirstHalf(v, m);
    AbcSecondHalf(v, m);
  }

  lemma AbcLength(m: seq<Word>)
    requires IsAbc(m)
    ensures |m| == 16
  {
  }

  // ---------------------------------------------------------------------------
  // The block of a key of 64 bytes
  // ---------------------------------------------------------------------------

  predicate IsKey(m: seq<Word>) {
    && |m| == 16
    && m[0] == W(0x0706050403020100) && m[1] == W(0x0f0e0d0c0b0a0908)
    && m[2] == W(0x1716151413121110) && m[3] == W(0x1f1e1d1c1b1a1918)
    && m[4] == W(0x2726252423222120) && m[5] == W(0x2f2e2d2c2b2a2928)
    && m[6] == W(0x3736353433323130) && m[7] == W(0x3f3e3d3c3b3a3938)
    && m[8] == W(0x0000000000000000) && m[9] == W(0x0000000000000000)
    && m[10] == W(0x0000000000000000) && m[11] == W(0x0000000000000000)
    && m[12] == W(0x0000000000000000) && m[13] == W(0x0000000000000000)
    && m[14] == W(0x0000000000000000) && m[15] == W(0x0000000000000000)
  }

  const K0: Rows := Rows(
    Row(W(0x6a09e667f2bd8948), W(0xbb67ae8584caa73b), W(0x3c6ef372fe94f82b), W(0xa54ff53a5f1d36f1)),
    Row(W(0x510e527fade682d1), W(0x9b05688c2b3e6c1f), W(0x1f83d9abfb41bd6b), W(0x5be0cd19137e2179)),
    Row(W(0x6a09e667f3bcc908), W(0xbb67ae8584caa73b), W(0x3c6ef372fe94f82b), W(0xa54ff53a5f1d36f1)),
    Row(W(0x510e527fade68251), W(0x9b05688c2b3e6c1f), W(0x1f83d9abfb41bd6b), W(0x5be0cd19137e2179)))

  const K0_HALF: Rows := Rows(
    Row(W(0xfce69820f2d7e54c), W(0xfb29447a67d3b4d2), W(0x23e097aaf3a9fb3e), W(0x54f62acbc45ac7a3)),
    Row(W(0x51324affb424aa90), W(0xf51fe27e1dfc14d3), W(0x0accb7227842d04b), W(0x0822ecc94f3e3b75)),
    Row(W(0x032368569e359a63), W(0x94080a0787607d39), W(0xf4ff23aa97a79345), W(0x5941806344cc196b)),
    Row(W(0x8ad8f2a6176861c7), W(0xf07b130c0c0f9155), W(0xd0d6c459fc776f32), W(0xfd3de2458228a7dc)))

  const K1: Rows := Rows(
    Row(W(0x113f4711f6370dda), W(0xc1e8e9f6ece8a4c8), W(0xbc0e32ce6ce52ae8), W(0x21acd1149aed697d)),
    Row(W(0x16f72fc9d031db29), W(0x0787928649aa6d20), W(0x8a80eb13dbef3382), W(0x3f2d5afa4c542c9b)),
    Row(W(0x0f9c03270fd6e278), W(0xf0ffccadca751ade), W(0x1cfb0531c1b6252b), W(0xfeb29bd3e125866a)),
    Row(W(0xadf236960d2c63c5), W(0xbd90f2e99528b09d), W(0xd8efa5a4cc15ec13), W(0x950083c41ad2f90c)))

  lemma KeyColumns0(m: seq<Word>)
    requires IsKey(m)
    ensures ColumnsTake(K0, m, SIGMA_0, K0_HALF)
  {
  }

  lemma KeyDiagonals0(m: seq<Word>)
    requires IsKey(m)
    ensures DiagonalsTake(K0_HALF, m, SIGMA_0, K1)
  {
  }

  const K1_HALF: Rows := Rows(
    Row(W(0xd33063a7de0b0d48), W(0xc199a85b7477f866), W(0x407e110d85311725), W(0xec2b110685c3d9e3)),
    Row(W(0x1a38955cd2bcb5a3), W(0x7390b7fab316c593), W(0x519d1e807fac80f3), W(0x4ceb66c47c8569ac)),
    Row(W(0x27e5a6627efc7e94), W(0x68cb5d474349a797), W(0x51207c6b038af8c2), W(0x726f1ca15512a64d)),
    Row(W(0x4d051874e9615bcf), W(0xab2e0d042bce3971), W(0xaf63c4bfa3741b51), W(0x762911b87e127019)))

  const K2: Rows := Rows(
    Row(W(0xbdc373ef66cb7b77), W(0x124becb53559433c), W(0x93387b2cf1f780e2), W(0xdbbb553f3158ebd2)),
    Row(W(0x030f307e8cd0e0fa), W(0x249f863e6a33d122), W(0x8368830aa49ed717), W(0x1407bebba5ac2f87)),
    Row(W(0x4c93194367d0d11a), W(0x868cfcacd4fc6a71), W(0x75bb885fff867705), W(0x214d4a44796fdc58)),
    Row(W(0x90970c0ccd236260), W(0xfa34b940c28cd7b0), W(0xfce2fb65f6c0abaa), W(0x42615ffad815452d)))

  lemma KeyColumns1(m: seq<Word>)
    requires IsKey(m)
    ensures ColumnsTake(K1, m, SIGMA_1, K1_HALF)
  {
  }

  lemma KeyDiagonals1(m: seq<Word>)
    requires IsKey(m)
    ensures DiagonalsTake(K1_HALF, m, SIGMA_1, K2)
  {
  }

  const K2_HALF: Rows := Rows(
    Row(W(0x876c25f6510386a5), W(0x2dd87ebeb3d5bb29), W(0x87755ca7a804734d), W(0xadcaf31f311b1ddb)),
    Row(W(0xf91d215f1d34a1ea), W(0x779c6f649cd421cb), W(0xf52efe9dfba37250), W(0x787d296f1cd78f26)),
    Row(W(0xba171127d3fd7ac1), W(0x542931755f2cb52e), W(0x500763612ee05834), W(0x82394b93d47dc511)),
    Row(W(0x2ec4b9d31be70146), W(0x709a70d9bd507f0a), W(0xa34bb075762c1129), W(0x51dba2daad6b9cb9)))

  const K3: Rows := Rows(
    Row(W(0x66b715424dcef6b1), W(0x76f6bc5381336e7b), W(0xcde03d6e2b9ceaf2), W(0xb3070d1803331f5e)),
    Row(W(0x46357167320ac361), W(0x6cb583a541907920), W(0xb9c9ac917f1c4068), W(0x5ee956c17a16697d)),
    Row(W(0xd0d5c66f9d779281), W(0x47e26bc608c45fc9), W(0x51f4be35ff3f72d1), W(0xa17e3aee3ce3d68e)),
    Row(W(0x4dd0a782fb84edd2), W(0x597870a679cf6436), W(0xbb558b64a3f40690), W(0xc131260b218be31d)))

  lemma KeyColumns2(m: seq<Word>)
    requires IsKey(m)
    ensures ColumnsTake(K2, m, SIGMA_2, K2_HALF)
  {
  }

  lemma KeyDiagonals2(m: seq<Word>)
    requires IsKey(m)
    ensures DiagonalsTake(K2_HALF, m, SIGMA_2, K3)
  {
  }

  const K3_HALF: Rows := Rows(
    Row(W(0x67604d3d14a86257), W(0xf8ccc5a82f3bf7e0), W(0xaf3eeee232f9bc9d), W(0xc565817a2739fd52)),
    Row(W(0xd9510b519507866e), W(0x4164ed5c87efd842), W(0x3dbb2d22ee46e464), W(0x0b68bbf8a324c05e)),
    Row(W(0x179d0cff9317ac3a), W(0xc6462d2905a40204), W(0x39489273ff63e371), W(0xb6c1405cf8621458)),
    Row(W(0x063027f753a5b552), W(0xda525cdda12d7489), W(0xde06a673c3280e05), W(0xb88099a7eabcf7f8)))

  const K4: Rows := Rows(
    Row(W(0x4772be211e80165a), W(0x145e5ce3bb8abf21), W(0x7cd2d87e5e8f0888), W(0xf2615f68baf34393)),
    Row(W(0xfae32ad7cf673259), W(0xdd9cd02c651895ae), W(0xec85863c74373ba3), W(0x30923e54c7df9a01)),
    Row(W(0x0bb61c5101a3a46d), W(0xaedb47f7190226ff), W(0x3eaf5129092fd356), W(0x58eafff248c62464)),
    Row(W(0x87210f56ecddd80c), W(0x9bab24bf32ec6510), W(0x692b8d08d2adfa43), W(0xc0500264027019db)))

  lemma KeyColumns3(m: seq<Word>)
    requires IsKey(m)
    ensures ColumnsTake(K3, m, SIGMA_3, K3_HALF)
  {
  }

  lemma KeyDiagonals3(m: seq<Word>)
    requires IsKey(m)
    ensures DiagonalsTake(K3_HALF, m, SIGMA_3, K4)
  {
  }

  const K4_HALF: Rows := Rows(
    Row(W(0xc91a30f3047110bb), W(0xfc97c472e7b8a9e5), W(0xea7e588da98113e1), W(0xd951daa6a2ccf480)),
    Row(W(0xf7706f8ee9c51450), W(0xc6a594dfa155e014), W(0x434ac46e95db1ecc), W(0xe57245b8ab522481)),
    Row(W(0x0406753167654d20), W(0xff62e695b01a02bc), W(0x634cddadea6b12e0), W(0x44e71e354a5304ac)),
    Row(W(0xf715c820a04cc105), W(0xd76685b6dc955d3a), W(0xed27dd0bf7f540c4), W(0x6b5959f31ee9406f)))

  const K5: Rows := Rows(
    Row(W(0xa31ce8b789eb8b45), W(0xd13e2a430a774d37), W(0xfeae41386cf1cc2e), W(0x1489ae0a73d47143)),
    Row(W(0x7cf994549c40c2e4), W(0x635f66b5fce71ac0), W(0x43cf2b55774306d7), W(0x09fc734a93b40402)),
    Row(W(0xf3795418ad36609d), W(0x1ad58c9282082e29), W(0x35e0a68227691c0e), W(0x30bc34cb374207ed)),
    Row(W(0x0df60ce123f7c280), W(0x9ae2aa3e7590bcb1), W(0xcb1944d0cf267113), W(0x1764183358176d0d)))

  lemma KeyColumns4(m: seq<Word>)
    requires IsKey(m)
    ensures ColumnsTake(K4, m, SIGMA_4, K4_HALF)
  {
  }

  lemma KeyDiagonals4(m: seq<Word>)
    requires IsKey(m)
    ensures DiagonalsTake(K4_HALF, m, SIGMA_4, K5)
  {
  }

  const K5_HALF: Rows := Rows(
    Row(W(0x876a4c92f4a3e4ad), W(0x4a54c237c56535b6), W(0x89db09b02597a1e2), W(0xcde9900ac9e0e82f)),
    Row(W(0xb1246a0e04b29147), W(0x3bf496e9a01ca43e), W(0x6586eaf4d1926b03), W(0xe3c31c20dcb2b10f)),
    Row(W(0x88af8f75b93ccdd7), W(0xc37ab77e5adace90), W(0xf294ed6456a9f85c), W(0x61a4df89c9670155)),
    Row(W(0x7a6c9da3d12bce79), W(0x59a50554e7a13454), W(0x94a3a1cbaca6a70d), W(0xd14992768842c002)))

  const K6: Rows := Rows(
    Row(W(0x54bc14aa79a42e3d), W(0x6c5a3a963579e9a8), W(0x32fd795e5c348d22), W(0xb7003fae6b5481ef)),
    Row(W(0xeea54f4a03823036), W(0x1a2f9d07a1b0a351), W(0x9a608aa767cdff46), W(0xb23b3d78a932d8b5)),
    Row(W(0x1c42cd310d73566b), W(0x5fb69f2c9077e76a), W(0xe720c28a1119d59a), W(0x032266528bfb192c)),
    Row(W(0x9e636f402d1ea00c), W(0xada7d7161ffb680f), W(0x2700c23b1add71eb), W(0xb4eb6b1c7ea34268)))

  lemma KeyColumns5(m: seq<Word>)
    requires IsKey(m)
    ensures ColumnsTake(K5, m, SIGMA_5, K5_HALF)
  {
  }

  lemma KeyDiagonals5(m: seq<Word>)
    requires IsKey(m)
    ensures DiagonalsTake(K5_HALF, m, SIGMA_5, K6)
  {
  }

  const K6_HALF: Rows := Rows(
    Row(W(0x69e2baa386d58284), W(0xae505cf18b34d36a), W(0x82c2a262244d3704), W(0x479bd9494f4c01dd)),
    Row(W(0x1bfe5813e3aa883e), W(0x4dc7113b854fe688), W(0x04bf04ee762186ee), W(0x471930dd0d9390a1)),
    Row(W(0xfaac058b2f51bef6), W(0x3e5bf0da6ba7ce2d), W(0xb73b1c2b5b5a69eb), W(0x14b6ae90916b4e49)),
    Row(W(0x8e3039da44dc5bd7), W(0xe0d5539fa2ffb304), W(0xf13a5c1d5fe1ce13), W(0xc88a0e91e0e56bc6)))

  const K7: Rows := Rows(
    Row(W(0xcd9ce40a846e7198), W(0xcadfadb2041ca623), W(0xd4a1201e173dca0a), W(0x464d850dc0637b38)),
    Row(W(0x46b0671a6442fe5a), W(0x32932b7f1a9be9f9), W(0x990581f58f68b806), W(0x57b5ec40feab1938)),
    Row(W(0xd875c1eaad1f7dc9), W(0xc1eb603dbf4d8e30), W(0x56e74054b7413aa8), W(0x8df9397b73ce5d80)),
    Row(W(0x08edba8b7ded6069), W(0x4aaa47be54bf3e33), W(0x16782b5ac10552c3), W(0xafea225ee5c0f24b)))

  lemma KeyColumns6(m: seq<Word>)
    requires IsKey(m)
    ensures ColumnsTake(K6, m, SIGMA_6, K6_HALF)
  {
  }

  lemma KeyDiagonals6(m: seq<Word>)
    requires IsKey(m)
    ensures DiagonalsTake(K6_HALF, m, SIGMA_6, K7)
  {
  }

  const K7_HALF: Rows := Rows(
    Row(W(0x96de6d504a680f9f), W(0x2fbb116b046fa383), W(0xf430a647404168d4), W(0xee321b052e9e2c00)),
    Row(W(0xdd21ee469a7ab3db), W(0x650100c3621310b0), W(0xaea6a7384e464459), W(0xfe0dcf053e2a70e2)),
    Row(W(0x6c01d5082c8bc640), W(0xc1897a9c1b755277), W(0xa028a4bba9b3ff90), W(0x4e166b18cb604609)),
    Row(W(0xfe30038262cb56c8), W(0xf25022f6e60c7274), W(0xe19d939376943b9f), W(0x8034d1da44c63c55)))

  const K8: Rows := Rows(
    Row(W(0x306e659a67c067ad), W(0xf9cd5197a9931da1), W(0xf9e1c37b15edd9f8), W(0xf8bdb71145d34770)),
    Row(W(0x42ae0145e4f4e1c4), W(0x3d1cf37bd17e14b1), W(0xa2a12c61ff1d3c93), W(0x858df555e3f9f8de)),
    Row(W(0x92abe25095b3337d), W(0x370498139bd22667), W(0x60d4bceb65a6176e), W(0x2515e5e0cc358aec)),
    Row(W(0xa680c9b3e08389c2), W(0x8e42618668b91583), W(0xcabc52037c654624), W(0x2d48a30d10b8ccf9)))

  lemma KeyColumns7(m: seq<Word>)
    requires IsKey(m)
    ensures ColumnsTake(K7, m, SIGMA_7, K7_HALF)
  {
  }

  lemma KeyDiagonals7(m: seq<Word>)
    requires IsKey(m)
    ensures DiagonalsTake(K7_HALF, m, SIGMA_7, K8)
  {
  }

  const K8_HALF: Rows := Rows(
    Row(W(0x1bbb7c853ebc70e7), W(0x3b48928b2b5dd0d7), W(0xb58aec6212472ae7), W(0x3cb73e4f2d560ee5)),
    Row(W(0x4c7375c7197e9ba8), W(0x75614b63733080e8), W(0x312a6a2f3527c503), W(0x92ebf17a5183de6d)),
    Row(W(0x57515a93326bbb92), W(0x3eeee8c609d4def1), W(0x617cea7f78b219c5), W(0x7e107459284722a1)),
    Row(W(0x254084df8fe6326e), W(0xf44228e0b55a93f5), W(0x9739dce4bccd4479), W(0x1c8300c0b3f8854f)))

  const K9: Rows := Rows(
    Row(W(0x0992e213b5136654), W(0x0a0f3f52fa35f156), W(0x304f07ac9d247a03), W(0x4f352cb7eda150f3)),
    Row(W(0xcfad8f27231c8d57), W(0xc8dadf20d9e2f418), W(0x51ec084ca82cd893), W(0xb69e60baae35f5f6)),
    Row(W(0xeaecc7fd5c37bc7c), W(0x710a8ce6ea2c3b95), W(0x050d6a869ce51979), W(0xf6a8017a0a604e0d)),
    Row(W(0x8933e56c98e6b307), W(0xb80bebc086053ee2), W(0x3801b52cc243f3b2), W(0xa17c0b869693388c)))

  lemma KeyColumns8(m: seq<Word>)
    requires IsKey(m)
    ensures ColumnsTake(K8, m, SIGMA_8, K8_HALF)
  {
  }

  lemma KeyDiagonals8(m: seq<Word>)
    requires IsKey(m)
    ensures DiagonalsTake(K8_HALF, m, SIGMA_8, K9)
  {
  }

  const K9_HALF: Rows := Rows(
    Row(W(0xa8340c3306c9934a), W(0xe6d593a3e9f25a1a), W(0x6b78837feda90c3c), W(0x0c25bb3c5623c62a)),
    Row(W(0x0a1ee885c59a5207), W(0x3c2e9a60df15cfaf), W(0x92641b455114d2ba), W(0x6df28dbc104f1da5)),
    Row(W(0x32d2f1a6f94aa78c), W(0x72d21d3b9d3db45b), W(0x3bfb0cb491612663), W(0x7eecb54f8c3fc3c3)),
    Row(W(0x071ce8fd4c9f56ba), W(0xafa9b4c8482f8313), W(0xf42529b0fb0314d1), W(0x57d23c57cc41e3be)))

  const K10: Rows := Rows(
    Row(W(0xe8712eed9cf6ff93), W(0xeb151c4e1c3c282f), W(0x1ce8e841fb507039), W(0x22b7731fb082b2eb)),
    Row(W(0x12884cfedcb81015), W(0x9dff8f648758d9ef), W(0x2a37425f23632156), W(0x95cb711f30518798)),
    Row(W(0x6eba01667a16ee8c), W(0x8c28ec26ff9e91b0), W(0xcaf14febf4bbf06d), W(0x64c0cc4b70856bf0)),
    Row(W(0x6e3b9c8d66206219), W(0xeaa94dd529abac70), W(0x3899c20a7fff52e3), W(0x6557c1efafaa2f46)))

  lemma KeyColumns9(m: seq<Word>)
    requires IsKey(m)
    ensures ColumnsTake(K9, m, SIGMA_9, K9_HALF)
  {
  }

  lemma KeyDiagonals9(m: seq<Word>)
    requires IsKey(m)
    ensures DiagonalsTake(K9_HALF, m, SIGMA_9, K10)
  {
  }

  const K10_HALF: Rows := Rows(
    Row(W(0x7428aa984af402e5), W(0x3a100a999be60e13), W(0x95d3e7149872433f), W(0x54ba6b64f5a104b6)),
    Row(W(0x89f1fc940279b219), W(0xa9e2f82e6b9a23cb), W(0x40a76c24f30c5702), W(0xb2b629c51acb3821)),
    Row(W(0xa7e3e2d1c2043039), W(0xae3650a1ffe9f028), W(0xd80cdc3152f44ce9), W(0xfc9800572b05c3db)),
    Row(W(0x1e986eb9d8292530), W(0x8300a51cb5c7d165), W(0xcef0abf90758cead), W(0xdc2aef162f917f4f)))

  const K11: Rows := Rows(
    Row(W(0xadc5159f855c462e), W(0xb34456d2631ebd91), W(0x8e67eff61be28df7), W(0x1dba981d815046e1)),
    Row(W(0x0eaf37b0f3e7ba4e), W(0xe52633a75f77fa91), W(0x830d8c10e40f76df), W(0x459994d1764f49e3)),
    Row(W(0xe7111574d382b666), W(0x3859abfcf0c64d35), W(0x7d2a6b0b6175e236), W(0xf90a261ba62be313)),
    Row(W(0xa596e59f16f70731), W(0x3832889d45f3d068), W(0x8ae0e2f8e07f910c), W(0x0bfe34da4c60477d)))

  lemma KeyColumns10(m: seq<Word>)
    requires IsKey(m)
    ensures ColumnsTake(K10, m, SIGMA_0, K10_HALF)
  {
  }

  lemma KeyDiagonals10(m: seq<Word>)
    requires IsKey(m)
    ensures DiagonalsTake(K10_HALF, m, SIGMA_0, K11)
  {
  }

  const K11_HALF: Rows := Rows(
    Row(W(0x3f59c8a8e46f719a), W(0xdf1f53db683f5969), W(0x166d6726b57ef9ef), W(0x353d0713bb3ac66c)),
    Row(W(0x65f82de9acc05bb9), W(0x9101208ca3b9c7ea), W(0x0e7dc3b28b168a0c), W(0x13a050ce9fd3955e)),
    Row(W(0x30196dacbd4b5cc2), W(0x570e347bd35a63d2), W(0x03c90ac6f007b01f), W(0x93628c97df80ced7)),
    Row(W(0xd95550eacfe5fd8d), W(0x7e697f545af1ef9d), W(0x671109e0f2fc2eeb), W(0xde588ec2d0aad390)))

  const K12: Rows := Rows(
    Row(W(0x61583f17f6eeb0de), W(0x6d4a906972cf180b), W(0xccfc325dad2b7c13), W(0xf615a222cdf72f91)),
    Row(W(0xe3a82664afcdf619), W(0x1ca1ece5f9fe9da5), W(0x802b4a97fcdab01a), W(0x2fbf59e0f1415a79)),
    Row(W(0xf46f91dc643e1eb2), W(0xfd4031ef48513020), W(0x0fbfbea49f442080), W(0x2184fb8897087a8b)),
    Row(W(0x547054f889915f39), W(0xb4b2c35f528df94f), W(0x445897ccc7846085), W(0xc85d22c1ae0bf7de)))

  lemma KeyColumns11(m: seq<Word>)
    requires IsKey(m)
    ensures ColumnsTake(K11, m, SIGMA_1, K11_HALF)
  {
  }

  lemma KeyDiagonals11(m: seq<Word>)
    requires IsKey(m)
    ensures DiagonalsTake(K11_HALF, m, SIGMA_1, K12)
  {
  }

  lemma KeyFirstHalf(v: seq<Word>, m: seq<Word>)
    requires |v| == 16 && IsKey(m) && Holds(K0, Rounds(v, m, 0))
    ensures Holds(K6, Rounds(v, m, 6))
  {
    hide IsKey, ColumnsTake, DiagonalsTake, Columns, Diagonals, Rounds, Holds;
    assert |m| == 16 by { KeyLength(m); }
    KeyColumns0(m);
    KeyDiagonals0(m);
    OneRound(v, m, 0, K0, K0_HALF, K1);
    KeyColumns1(m);
    KeyDiagonals1(m);
    OneRound(v, m, 1, K1, K1_HALF, K2);
    KeyColumns2(m);
    KeyDiagonals2(m);
    OneRound(v, m, 2, K2, K2_HALF, K3);
    KeyColumns3(m);
    KeyDiagonals3(m);
    OneRound(v, m, 3, K3, K3_HALF, K4);
    KeyColumns4(m);
    KeyDiagonals4(m);
    OneRound(v, m, 4, K4, K4_HALF, K5);
    KeyColumns5(m);
    KeyDiagonals5(m);
    OneRound(v, m, 5, K5, K5_HALF, K6);
  }

  lemma KeySecondHalf(v: seq<Word>, m: seq<Word>)
    requires |v| == 16 && IsKey(m) && Holds(K6, Rounds(v, m, 6))
    ensures Holds(K12, Rounds(v, m, 12))
  {
    hide IsKey, ColumnsTake, DiagonalsTake, Columns, Diagonals, Rounds, Holds;
    assert |m| == 16 by { KeyLength(m); }
    KeyColumns6(m);
    KeyDiagonals6(m);
    OneRound(v, m, 6, K6, K6_HALF, K7);
    KeyColumns7(m);
    KeyDiagonals7(m);
    OneRound(v, m, 7, K7, K7_HALF, K8);
    KeyColumns8(m);
    KeyDiagonals8(m);
    OneRound(v, m, 8, K8, K8_HALF, K9);
    KeyColumns9(m);
    KeyDiagonals9(m);
    OneRound(v, m, 9, K9, K9_HALF, K10);
    KeyColumns10(m);
    KeyDiagonals10(m);
    OneRound(v, m, 10, K10, K10_HALF, K11);
    KeyColumns11(m);
    KeyDiagonals11(m);
    OneRound(v, m, 11, K11, K11_HALF, K12);
  }

  lemma KeyRounds(v: seq<Word>, m: seq<Word>)
    requires |v| == 16 && IsKey(m) && Holds(K0, v)
    ensures Holds(K12, Rounds(v, m, 12))
  {
    hide IsKey, Holds, Rounds;
    assert |m| == 16 by { KeyLength(m); }
    NoRounds(v, m);
    KeyFirstHalf(v, m);
    KeySecondHalf(v, m);
  }

  lemma KeyLength(m: seq<Word>)
    requires IsKey(m)
    ensures |m| == 16
  {
  }

  // ---------------------------------------------------------------------------
  // A block of 128 bytes after it
  // ---------------------------------------------------------------------------

  predicate IsBlock(m: seq<Word>) {
    && |m| == 16
    && m[0] == W(0x0706050403020100) && m[1] == W(0x0f0e0d0c0b0a0908)
    && m[2] == W(0x1716151413121110) && m[3] == W(0x1f1e1d1c1b1a1918)
    && m[4] == W(0x2726252423222120) && m[5] == W(0x2f2e2d2c2b2a2928)
    && m[6] == W(0x3736353433323130) && m[7] == W(0x3f3e3d3c3b3a3938)
    && m[8] == W(0x4746454443424140) && m[9] == W(0x4f4e4d4c4b4a4948)
    && m[10] == W(0x5756555453525150) && m[11] == W(0x5f5e5d5c5b5a5958)
    && m[12] == W(0x6766656463626160) && m[13] == W(0x6f6e6d6c6b6a6968)
    && m[14] == W(0x7776757473727170) && m[15] == W(0x7f7e7d7c7b7a7978)
  }

  const B0: Rows := Rows(
    Row(W(0xff3e48ac606d2724), W(0x2b6d0f03be548f10), W(0xff2d7f8bccfba4b8), W(0x72deac9005e263eb)),
    Row(W(0xe6d620e38bba2bf1), W(0x33164736804d08f5), W(0xdbf004f0c01f6df4), W(0xbc02b6384c348cde)),
    Row(W(0x6a09e667f3bcc908), W(0xbb67ae8584caa73b), W(0x3c6ef372fe94f82b), W(0xa54ff53a5f1d36f1)),
    Row(W(0x510e527fade683d1), W(0x9b05688c2b3e6c1f), W(0xe07c265404be4294), W(0x5be0cd19137e2179)))

  const B0_HALF: Rows := Rows(
    Row(W(0x675680ea09d22c41), W(0xc059907150026920), W(0xfd57c1f7ddc79814), W(0xc572ddc044c6de02)),
    Row(W(0xad51cd1812c2e93d), W(0x16f44cc457ad9ed1), W(0x866e8b1727c7e66f), W(0xc0e6830ffc2d13ad)),
    Row(W(0xbd86e3c606ffbbba), W(0xa0d82e64c8e2699b), W(0x08d2aea09183c817), W(0xc06e49007a550b07)),
    Row(W(0x10ad2599572eb5c6), W(0x6ae2bad4557bbe9e), W(0x17e049d4b0af3ff8), W(0x84e75345dd407931)))

  const B1: Rows := Rows(
    Row(W(0x6c767fd391751d1f), W(0xcd02f213f54c0765), W(0xfdf2f7bdfdd60133), W(0xe8f3ac7fc16f56fb)),
    Row(W(0x4b698dd6163d5666), W(0x12d44cc6f9843ca9), W(0xc28d19207d8fa2ca), W(0xbfc1e50d9eb9eb50)),
    Row(W(0x373f2d639a487f02), W(0x5a8ec85d71e60fe7), W(0xdefd39f7ddaad9d1), W(0xaec0af4af012dc4b)),
    Row(W(0x52205130e70a7bff), W(0x118b95de4402b290), W(0x3f6392a0ab283cb4), W(0x5ca815f40ab0d003)))

  lemma BlockColumns0(m: seq<Word>)
    requires IsBlock(m)
    ensures ColumnsTake(B0, m, SIGMA_0, B0_HALF)
  {
  }

  lemma BlockDiagonals0(m: seq<Word>)
    requires IsBlock(m)
    ensures DiagonalsTake(B0_HALF, m, SIGMA_0, B1)
  {
  }

  const B1_HALF: Rows := Rows(
    Row(W(0x08b42eea72b8ee46), W(0x277e4ae6012183de), W(0x66516d354a3d3030), W(0x76863cfe2495d38d)),
    Row(W(0xdba32ee19bbdb1ff), W(0xfe8b66111ab3825f), W(0x3c770c63861fd331), W(0x1e91d4e0bc45a3b9)),
    Row(W(0x6fd6c108c99f60fe), W(0x267f12aa26b51c5f), W(0x493f17bfcb1d20eb), W(0xa864e2a07bed2776)),
    Row(W(0x3c68f49ab1e00fce), W(0x75ff728e9d581657), W(0xfcba0bd6bcc47a90), W(0x3880b7a5474e601e)))

  const B2: Rows := Rows(
    Row(W(0xd768da42f8303ef0), W(0x2114ee3a1c8b6b73), W(0x3f6d202167406660), W(0xbf9479cda25ff70b)),
    Row(W(0xf6221ab3928943a3), W(0x14fbd62a8316dcd2), W(0x715e5383e6943062), W(0xd82b06eb797d743f)),
    Row(W(0xf7f8c007769645f8), W(0xe40fcefc528c8eee), W(0x53c939c3bddc0d8a), W(0xa7ac55198c7c1a65)),
    Row(W(0xc3a41ab7b9fb4a18), W(0x8b9cc3e81b37f6fe), W(0x65d6e82dade9dfb2), W(0x2b520850c3f1d6fd)))

  lemma BlockColumns1(m: seq<Word>)
    requires IsBlock(m)
    ensures ColumnsTake(B1, m, SIGMA_1, B1_HALF)
  {
  }

  lemma BlockDiagonals1(m: seq<Word>)
    requires IsBlock(m)
    ensures DiagonalsTake(B1_HALF, m, SIGMA_1, B2)
  {
  }

  const B2_HALF: Rows := Rows(
    Row(W(0xdefd1638eca16622), W(0x13230cb5beff288f), W(0x96769a3f4ada7098), W(0x181160c67c4401db)),
    Row(W(0xd8cb5b625dcbb47d), W(0xa0a9c91e0b3eb993), W(0xfc44724f9975b1cb), W(0xcae84268c4c9c688)),
    Row(W(0x86a8d310edae92c9), W(0xbef13967bd672123), W(0x6144dd7e7273477b), W(0xf410d4101be550f5)),
    Row(W(0x2ec7811587cb03ec), W(0xc2ae0b1053eea814), W(0x38644361fa67f0f5), W(0xf7be4cb752f9402b)))

  const B3: Rows := Rows(
    Row(W(0xd679aefb786c950d), W(0xb89bb369b9780627), W(0xd80e5c4587d1aeeb), W(0xe53078e02c900028)),
    Row(W(0x2b69911a92f03efd), W(0xc04fb509149754bd), W(0xa36be730e5538dcc), W(0xe734b39dc4057c28)),
    Row(W(0x5bf96c9bd3eb8b9f), W(0xe86b82cbad6bc016), W(0x6821de5f338c18c6), W(0x036a118c601f2763)),
    Row(W(0x1b134cde43f7b93a), W(0xbc1fc13e8409e5e2), W(0x4a3c3a0e77b554df), W(0xed11cfb29fd5592f)))

  lemma BlockColumns2(m: seq<Word>)
    requires IsBlock(m)
    ensures ColumnsTake(B2, m, SIGMA_2, B2_HALF)
  {
  }

  lemma BlockDiagonals2(m: seq<Word>)
    requires IsBlock(m)
    ensures DiagonalsTake(B2_HALF, m, SIGMA_2, B3)
  {
  }

  const B3_HALF: Rows := Rows(
    Row(W(0x7df3a0e8c5916546), W(0xbc680e30b7e15dc9), W(0x857d94fb732836b0), W(0x974be27f4f8fd0fa)),
    Row(W(0xb74e9fdae23ca4e4), W(0xf4ab234f543af0f0), W(0xc12d0ba61b54b13f), W(0x344e056a0b88fd95)),
    Row(W(0xb62499a742ae5cce), W(0x6f05ea3269b098bd), W(0xd3b8fb673a9c77ae), W(0x6e36e18595e9f728)),
    Row(W(0x54ca789314909fa3), W(0x1979d148982e93f7), W(0xbc5c2a47663bd3fc), W(0x969243716ef8895d)))

  const B4: Rows := Rows(
    Row(W(0xbacc2a61d4db6583), W(0xaba122ef5c354916), W(0xa62ddf52113aa69c), W(0xdf29efa8be4236cf)),
    Row(W(0xa8572378c68278db), W(0xd8fff318d5ee21cb), W(0xd05299e633dacac6), W(0x0d6c359c7325c8ec)),
    Row(W(0xb880000a55f7b441), W(0x1de13b31aef83a54), W(0x159ee26d1e3ddde8), W(0xcfaeca6b136fdaf5)),
    Row(W(0x76874151857ca43c), W(0xc85d9fd019c0e8b2), W(0xe35e1454d302cc06), W(0xffbef8eac47acbfd)))

  lemma BlockColumns3(m: seq<Word>)
    requires IsBlock(m)
    ensures ColumnsTake(B3, m, SIGMA_3, B3_HALF)
  {
  }

  lemma BlockDiagonals3(m: seq<Word>)
    requires IsBlock(m)
    ensures DiagonalsTake(B3_HALF, m, SIGMA_3, B4)
  {
  }

  const B4_HALF: Rows := Rows(
    Row(W(0x266e03deed4b0682), W(0x5844742b29ccc340), W(0x916f79e111f2ab50), W(0xab007c330385c83f)),
    Row(W(0x2b7f55d73124cb53), W(0xce484e1944bf38d3), W(0x1d7d1ab6a465e108), W(0x7a53aa7f6bb1c107)),
    Row(W(0xf949c95f9b32b875), W(0x8212d4b6331b6996), W(0xd20c4b2bc49bf73a), W(0x5abc5122b6881d3f)),
    Row(W(0xdcf545ba804429bd), W(0x1fa41cc90890525e), W(0x31481a4a37957f3a), W(0x4a4cebc0e6c5bfd7)))

  const B5: Rows := Rows(
    Row(W(0xbe560a543d9ade7b), W(0x53ae1cbc852ee864), W(0xc87c74a4b74c265a), W(0x3aa0ae63d72ca7d8)),
    Row(W(0x311975d2dc33c67b), W(0x970cdbeefaac369c), W(0xa283a97ee257b5c6), W(0x5549b970ee7d40e0)),
    Row(W(0x14980973b40de7e3), W(0x4d18eb3875e472fb), W(0x089d582cf0423fe0), W(0x46661fa689145387)),
    Row(W(0x41e0fa66c8a18cc4), W(0x6307703abb7dea11), W(0x52b442f17df313f9), W(0xf2d7fdef05461bfa)))

  lemma BlockColumns4(m: seq<Word>)
    requires IsBlock(m)
    ensures ColumnsTake(B4, m, SIGMA_4, B4_HALF)
  {
  }

  lemma BlockDiagonals4(m: seq<Word>)
    requires IsBlock(m)
    ensures DiagonalsTake(B4_HALF, m, SIGMA_4, B5)
  {
  }

  const B5_HALF: Rows := Rows(
    Row(W(0xae7d36695074fe8d), W(0xf02dfff68bde58c2), W(0x7478f0cf6f8eaf6a), W(0x7d3367367def1b50)),
    Row(W(0x94716b77905f12ed), W(0x58afc2e8f7985a94), W(0x374998fe71091000), W(0x32a4be86bb8e498a)),
    Row(W(0x8aa98e72081e6e51), W(0x5ab19db6feb29a08), W(0xb8b0bc344f0af0f2), W(0x9fb6c242042ffc85)),
    Row(W(0x91d04a3c0cab1711), W(0x0527f85d45d7c928), W(0xcebc952e3e164f3c), W(0x4ba6709955345808)))

  const B6: Rows := Rows(
    Row(W(0x35c701913ab678eb), W(0x326c96406c2d9eac), W(0xf21e0ca66901146c), W(0x0ff79e1cd61fc809)),
    Row(W(0x36d69ff944b6b7a3), W(0x29953fef798854cd), W(0x94d425ee2941c0a0), W(0xf58c62975a977a14)),
    Row(W(0x2ecd5b14e3bc8d9a), W(0x049d3eead3261cad), W(0x0ccfea59d8d8bf24), W(0xd6e280141c4133da)),
    Row(W(0x02a106e620ab9b48), W(0xc0e3115eb7e24aba), W(0x829d28b9e6653811), W(0x16040bdc23d85f43)))

  lemma BlockColumns5(m: seq<Word>)
    requires IsBlock(m)
    ensures ColumnsTake(B5, m, SIGMA_5, B5_HALF)
  {
  }

  lemma BlockDiagonals5(m: seq<Word>)
    requires IsBlock(m)
    ensures DiagonalsTake(B5_HALF, m, SIGMA_5, B6)
  {
  }

  const B6_HALF: Rows := Rows(
    Row(W(0xda6c35e2f5f3fe14), W(0x85ea401adc053eff), W(0xfdd689d9e56cd960), W(0xfc1c45e01709b999)),
    Row(W(0x70eef8083cbfe40c), W(0x079cd17835fc9ffb), W(0x8b1fe554739fe023), W(0x4d3504397ea71513)),
    Row(W(0xef4d7dc3f9a5b0f8), W(0x1895b7de753486fb), W(0x4a7086ce4d82d96d), W(0xde8148afd08d8f85)),
    Row(W(0xfe1c18083f442356), W(0xcc9ac2b7f62177e9), W(0x59d01e06f7b49999), W(0x979d8c1d799e2da7)))

  const B7: Rows := Rows(
    Row(W(0x12139e41ac14e740), W(0xdd908ad6a9504a5f), W(0x814fe379bc2a77f9), W(0x1d700992ac6d8b9b)),
    Row(W(0x338ca84617466a9f), W(0xc23254a7722e4599), W(0xa676115f17ca2393), W(0xf202ca86145d35ce)),
    Row(W(0xb6de9646f394b5c9), W(0x90067d2ab1a46611), W(0x08df7ef5f8ff2c35), W(0xa5091bb880bbf13c)),
    Row(W(0x08f46003f9d21f0c), W(0x6e11d830a32beae9), W(0x16b17dcf4eee41ec), W(0x6702457f2ce9d286)))

  lemma BlockColumns6(m: seq<Word>)
    requires IsBlock(m)
    ensures ColumnsTake(B6, m, SIGMA_6, B6_HALF)
  {
  }

  lemma BlockDiagonals6(m: seq<Word>)
    requires IsBlock(m)
    ensures DiagonalsTake(B6_HALF, m, SIGMA_6, B7)
  {
  }

  const B7_HALF: Rows := Rows(
    Row(W(0xde50710f04b2e945), W(0xf1e694767620ddb0), W(0xf4b21b6e308baf79), W(0x916f87ef3c185da7)),
    Row(W(0x029638c9f88d2f5c), W(0x0b794e7b6322a5b6), W(0xbaa8fa4bae40a970), W(0x2b2586989dbc459f)),
    Row(W(0xc8a843da86d44308), W(0x9ed3a57a1a64f1cb), W(0x0b23c901390afd3d), W(0x86028a225a371b11)),
    Row(W(0x3ab20947d544b948), W(0x193a0475b7afc730), W(0x888b8d0aa66ea916), W(0xe9ec66628fe8758a)))

  const B8: Rows := Rows(
    Row(W(0x242b98ddd8da896c), W(0x06be2bccf6b7db96), W(0xdeb7f5c530704321), W(0x7ad7f9a3d5eea628)),
    Row(W(0x0ff372186cf1efaa), W(0x5fbcd1887a84c336), W(0x3806d4e661537296), W(0x9d1ce921c4355e08)),
    Row(W(0x0eedadd509a9749d), W(0x7f9c778e0c9c4110), W(0x2bf3cfe77f9ab1d2), W(0xaf8a901903100095)),
    Row(W(0xdeef4c26921ce00b), W(0xa01f789204ad4e57), W(0xfeef9b0ecea6f67e), W(0x03b8393c557429c1)))

  lemma BlockColumns7(m: seq<Word>)
    requires IsBlock(m)
    ensures ColumnsTake(B7, m, SIGMA_7, B7_HALF)
  {
  }

  lemma BlockDiagonals7(m: seq<Word>)
    requires IsBlock(m)
    ensures DiagonalsTake(B7_HALF, m, SIGMA_7, B8)
  {
  }

  const B8_HALF: Rows := Rows(
    Row(W(0x7d42c19d31035e91), W(0x3bc81d1651fdcb74), W(0x7351929bb255e790), W(0xcdc2aff8a0bc7254)),
    Row(W(0xbc05186aef7c7f63), W(0x5c8dd987d8060d1c), W(0xf4a0ae6bbcd441d6), W(0x87f880e0c6116cd8)),
    Row(W(0x4c6d8fc34b340562), W(0x20ceb1c3ce07777e), W(0xa4461a4274779f82), W(0x247dc29aa35c9d88)),
    Row(W(0x529d97a08bd084b9), W(0xc12fdbca437d2c13), W(0x549950e96bea3aa7), W(0xaca105908309bdfe)))

  const B9: Rows := Rows(
    Row(W(0x63f69d6ca4d08fd7), W(0x5222770d7f917db6), W(0xeeeac23829154660), W(0x030809f943e87a9b)),
    Row(W(0x249c13b18db76a4e), W(0x2bbd2008d5fcb8b6), W(0x34dcb12c7f6e64fb), W(0xe9e0990c910c49ac)),
    Row(W(0xc99c300dca07e306), W(0xe0f5b6cdf3e8bb4b), W(0x1e7717cb4facede1), W(0xe9635874f5adffb1)),
    Row(W(0xd2f8a3ce8506b2db), W(0xbd222ee6b35be262), W(0x37c58b697059f66f), W(0x8ace8c94ed9f4946)))

  lemma BlockColumns8(m: seq<Word>)
    requires IsBlock(m)
    ensures ColumnsTake(B8, m, SIGMA_8, B8_HALF)
  {
  }

  lemma BlockDiagonals8(m: seq<Word>)
    requires IsBlock(m)
    ensures DiagonalsTake(B8_HALF, m, SIGMA_8, B9)
  {
  }

  const B9_HALF: Rows := Rows(
    Row(W(0xa5e1a8757e2666df), W(0xf862b2a5f85f2d8a), W(0x9d89375b9e8c019e), W(0x159a78302f6e696e)),
    Row(W(0x467c842f9b9de346), W(0xcf5d23455e6175c3), W(0xdffed1649b1e305b), W(0x378b3d108eb5d0f7)),
    Row(W(0x8ddccef928f4fbf9), W(0xebb82085935c2e5f), W(0xecb23934ca14f3f6), W(0x71b0047a631f9a8c)),
    Row(W(0xc363a53d51db7337), W(0xdf36d3e9276b8058), W(0x3a570e6d25a7ca4c), W(0x55eb27fbfc395e56)))

  const B10: Rows := Rows(
    Row(W(0x5e32a7f363bf73a7), W(0x9164f3aa84440a79), W(0xa887a4b731c64bea), W(0x8600b58a2e91b03a)),
    Row(W(0xc8a0e823742318ba), W(0x489c75a95693c33d), W(0x19c0b7a4bb2b3d47), W(0x94ef5ed94a794f82)),
    Row(W(0x069902a6233b591c), W(0xd72532a84f097543), W(0xae593b8b1b2b25ab), W(0x7edef70d6f9c6f7f)),
    Row(W(0x7e121e7827b06088), W(0x098bc7b7cf421ac2), W(0xd79b95d1c9dadf43), W(0x1d6bfa09afbfc2e9)))

  lemma BlockColumns9(m: seq<Word>)
    requires IsBlock(m)
    ensures ColumnsTake(B9, m, SIGMA_9, B9_HALF)
  {
  }

  lemma BlockDiagonals9(m: seq<Word>)
    requires IsBlock(m)
    ensures DiagonalsTake(B9_HALF, m, SIGMA_9, B10)
  {
  }

  const B10_HALF: Rows := Rows(
    Row(W(0x62e466f23307426c), W(0x4621ca355586fbef), W(0x23a16a3e1d450d5a), W(0x24d125ea762f3618)),
    Row(W(0xd200a9169e75d293), W(0x13f8eb0c32a9b078), W(0x545421293696c89b), W(0x29091ee030dd2f17)),
    Row(W(0xccfc90400222454a), W(0x3c105b3755d7dc2d), W(0xa12eab05794c5dac), W(0x07e8106696d95c7f)),
    Row(W(0xc90e9fb08b1b60cc), W(0x423f648a0e31ad1a), W(0x190bfa681f2c23b0), W(0x85862753d7ef3962)))

  const B11: Rows := Rows(
    Row(W(0x692fa9c2a690c4f2), W(0x5c1db817426ec52b), W(0xb05fa194d5cef301), W(0x5c0f9af34eafe7e6)),
    Row(W(0x861eb22db6dc40ca), W(0x9d201699d64bdae9), W(0xf91f2ff73673c7a8), W(0x12b52aa662de31f7)),
    Row(W(0x05bad0f689b0f333), W(0x2d4780179073d436), W(0x952dce7f5976aaf2), W(0x767c8df39c9db62d)),
    Row(W(0x1a290876cd017aac), W(0x79090fea915f23e1), W(0x59fbcb34c35839ec), W(0x74e31633a4849d35)))

  lemma BlockColumns10(m: seq<Word>)
    requires IsBlock(m)
    ensures ColumnsTake(B10, m, SIGMA_0, B10_HALF)
  {
  }

  lemma BlockDiagonals10(m: seq<Word>)
    requires IsBlock(m)
    ensures DiagonalsTake(B10_HALF, m, SIGMA_0, B11)
  {
  }

  const B11_HALF: Rows := Rows(
    Row(W(0x00a7b65eaa9e232c), W(0xfcb4d5646a9377b3), W(0x56931327ef2ee935), W(0xc953fd769db1769a)),
    Row(W(0xbeb4e8aa8823f010), W(0xecba4add95c8e2a3), W(0x713778607f814a75), W(0x62851150cfe5a1cc)),
    Row(W(0x1dd6fbf0c27da2b8), W(0x6357b9242190046e), W(0x66dccae323e7cef6), W(0x82a81d942a7412c3)),
    Row(W(0xfa3e1d79bbded673), W(0x8b8c563737b133f9), W(0x3cd9c246293a4e18), W(0x53af712fe3063761)))

  const B12: Rows := Rows(
    Row(W(0x738372909d21b47d), W(0x4d306985477363fe), W(0xf590153a896bdf2a), W(0x337a99cd15abed0f)),
    Row(W(0x8809599b58286f36), W(0xab843cdbe1478a3b), W(0x892e9e80e2ab47eb), W(0x9349fb9055a0a965)),
    Row(W(0x547fabe11912952b), W(0x1921c5ae058673be), W(0xda6ee08e1eed815b), W(0x05bf4ee8361f2c33)),
    Row(W(0x2c4f1bf87cdec9bf), W(0x08c8d84fc29a1a91), W(0x3c044abf58079e45), W(0xcb1adbf44b2632fe)))

  lemma BlockColumns11(m: seq<Word>)
    requires IsBlock(m)
    ensures ColumnsTake(B11, m, SIGMA_1, B11_HALF)
  {
  }

  lemma BlockDiagonals11(m: seq<Word>)
    requires IsBlock(m)
    ensures DiagonalsTake(B11_HALF, m, SIGMA_1, B12)
  {
  }

  lemma BlockFirstHalf(v: seq<Word>, m: seq<Word>)
    requires |v| == 16 && IsBlock(m) && Holds(B0, Rounds(v, m, 0))
    ensures Holds(B6, Rounds(v, m, 6))
  {
    hide IsBlock, ColumnsTake, DiagonalsTake, Columns, Diagonals, Rounds, Holds;
    assert |m| == 16 by { BlockLength(m); }
    BlockColumns0(m);
    BlockDiagonals0(m);
    OneRound(v, m, 0, B0, B0_HALF, B1);
    BlockColumns1(m);
    BlockDiagonals1(m);
    OneRound(v, m, 1, B1, B1_HALF, B2);
    BlockColumns2(m);
    BlockDiagonals2(m);
    OneRound(v, m, 2, B2, B2_HALF, B3);
    BlockColumns3(m);
    BlockDiagonals3(m);
    OneRound(v, m, 3, B3, B3_HALF, B4);
    BlockColumns4(m);
    BlockDiagonals4(m);
    OneRound(v, m, 4, B4, B4_HALF, B5);
    BlockColumns5(m);
    BlockDiagonals5(m);
    OneRound(v, m, 5, B5, B5_HALF, B6);
  }

  lemma BlockSecondHalf(v: seq<Word>, m: seq<Word>)
    requires |v| == 16 && IsBlock(m) && Holds(B6, Rounds(v, m, 6))
    ensures Holds(B12, Rounds(v, m, 12))
  {
    hide IsBlock, ColumnsTake, DiagonalsTake, Columns, Diagonals, Rounds, Holds;
    assert |m| == 16 by { BlockLength(m); }
    BlockColumns6(m);
    BlockDiagonals6(m);
    OneRound(v, m, 6, B6, B6_HALF, B7);
    BlockColumns7(m);
    BlockDiagonals7(m);
    OneRound(v, m, 7, B7, B7_HALF, B8);
    BlockColumns8(m);
    BlockDiagonals8(m);
    OneRound(v, m, 8, B8, B8_HALF, B9);
    BlockColumns9(m);
    BlockDiagonals9(m);
    OneRound(v, m, 9, B9, B9_HALF, B10);
    BlockColumns10(m);
    BlockDiagonals10(m);
    OneRound(v, m, 10, B10, B10_HALF, B11);
    BlockColumns11(m);
    BlockDiagonals11(m);
    OneRound(v, m, 11, B11, B11_HALF, B12);
  }

  lemma BlockRounds(v: seq<Word>, m: seq<Word>)
    requires |v| == 16 && IsBlock(m) && Holds(B0, v)
    ensures Holds(B12, Rounds(v, m, 12))
  {
    hide IsBlock, Holds, Rounds;
    assert |m| == 16 by { BlockLength(m); }
    NoRounds(v, m);
    BlockFirstHalf(v, m);
    BlockSecondHalf(v, m);
  }

  lemma BlockLength(m: seq<Word>)
    requires IsBlock(m)
    ensures |m| == 16
  {
  }

  // ---------------------------------------------------------------------------
  // From blocks to digests
  // ---------------------------------------------------------------------------

  /** A chaining value as two rows. */
  function Words(lo: Row, hi: Row): (h: seq<Word>)
    ensures |h| == 8
  {
    [lo.w0, lo.w1, lo.w2, lo.w3, hi.w0, hi.w1, hi.w2, hi.w3]
  }

  const IV_LO: Row :=
    Row(W(0x6a09e667f3bcc908), W(0xbb67ae8584caa73b), W(0x3c6ef372fe94f82b), W(0xa54ff53a5f1d36f1))
  const IV_HI: Row :=
    Row(W(0x510e527fade682d1), W(0x9b05688c2b3e6c1f), W(0x1f83d9abfb41bd6b), W(0x5be0cd19137e2179))

  lemma IvIs()
    ensures IV == Words(IV_LO, IV_HI)
  {
  }

  /** The work vector, as rows. */
  function Started(lo: Row, hi: Row, k: Tweak): Rows {
    Rows(lo, hi, IV_LO,
         Row(Xor(IV_HI.w0, ToWord(k.t0)), Xor(IV_HI.w1, ToWord(k.t1)), Xor(IV_HI.w2, k.f0), Xor(IV_HI.w3, k.f1)))
  }

  lemma StartedHolds(lo: Row, hi: Row, k: Tweak)
    ensures Holds(Started(lo, hi, k), WorkVector(Words(lo, hi), k))
  {
    hide Xor, ToWord;
    IvIs();
  }

  /** The output of the compression function, as two rows. */
  function EndLo(lo: Row, last: Rows): Row { XorSi256(lo, XorSi256(last.a, last.c)) }

  function EndHi(hi: Row, last: Rows): Row { XorSi256(hi, XorSi256(last.b, last.d)) }

  lemma CompressIs(lo: Row, hi: Row, k: Tweak, m: seq<Word>, last: Rows)
    requires |m| == 16 && Holds(last, Rounds(WorkVector(Words(lo, hi), k), m, 12))
    ensures Compress(Words(lo, hi), k, m) == Words(EndLo(lo, last), EndHi(hi, last))
  {
    hide Rounds, WorkVector, Xor;
  }

  /** Eight bytes as a number. */
  function Eight(b0: int, b1: int, b2: int, b3: int, b4: int, b5: int, b6: int, b7: int): int {
    b0 + 0x100 * b1 + 0x1_0000 * b2 + 0x100_0000 * b3 + 0x1_0000_0000 * b4
    + 0x100_0000_0000 * b5 + 0x1_0000_0000_0000 * b6 + 0x100_0000_0000_0000 * b7
  }

  lemma EightBytes(b: seq<u8>)
    requires |b| == 8
    ensures LeWord(b) == Eight(b[0], b[1], b[2], b[3], b[4], b[5], b[6], b[7])
  {
    assert LeValue(b[8..]) == 0;
    TailValue(b, 7);
    TailValue(b, 6);
    TailValue(b, 5);
    TailValue(b, 4);
    TailValue(b, 3);
    TailValue(b, 2);
    TailValue(b, 1);
    assert b[0..] == b;
    TailValue(b, 0);
  }

  lemma TailValue(b: seq<u8>, i: nat)
    requires i < |b|
    ensures LeValue(b[i..]) == b[i] + 256 * LeValue(b[i + 1..])
  {
    assert b[i..][1..] == b[i + 1..];
  }

  const UNKEYED_LO: Row :=
    Row(W(0x6a09e667f2bdc948), W(0xbb67ae8584caa73b), W(0x3c6ef372fe94f82b), W(0xa54ff53a5f1d36f1))
  const UNKEYED_HI: Row :=
    Row(W(0x510e527fade682d1), W(0x9b05688c2b3e6c1f), W(0x1f83d9abfb41bd6b), W(0x5be0cd19137e2179))
  const KEYED_LO: Row :=
    Row(W(0x6a09e667f2bd8948), W(0xbb67ae8584caa73b), W(0x3c6ef372fe94f82b), W(0xa54ff53a5f1d36f1))
  const KEYED_HI: Row :=
    Row(W(0x510e527fade682d1), W(0x9b05688c2b3e6c1f), W(0x1f83d9abfb41bd6b), W(0x5be0cd19137e2179))
  const CHAINED_LO: Row :=
    Row(W(0xff3e48ac606d2724), W(0x2b6d0f03be548f10), W(0xff2d7f8bccfba4b8), W(0x72deac9005e263eb))
  const CHAINED_HI: Row :=
    Row(W(0xe6d620e38bba2bf1), W(0x33164736804d08f5), W(0xdbf004f0c01f6df4), W(0xbc02b6384c348cde))
  const ABC_LO: Row :=
    Row(W(0x0d4d1c983fa580ba), W(0xe9f6129fb697276a), W(0xb7c45a68142f214c), W(0xd1a2ffdb6fbb124b))
  const ABC_HI: Row :=
    Row(W(0x2d79ab2a39c5877d), W(0x95cc3345ded552c2), W(0x5a92f1dba88ad318), W(0x239900d4ed8623b9))
  const LAST_LO: Row :=
    Row(W(0xd8c291dde45e0672), W(0x7f7ca328fca19f50), W(0xd0d38a3f5b7dfac9), W(0x441b7bb52656a2d7))
  const LAST_HI: Row :=
    Row(W(0x42906280af4c8d78), W(0x905aa3a2a390985f), W(0x6edad0cf7ab3b45a), W(0xe451965c52b21745))

  /** A word whose number is `x` is the word of `x`. */
  lemma WordOf(w: Word, x: u64)
    requires ToNumber(w) == x
    ensures ToWord(x) == w
  {
    WordAndNumber(w);
    hide ToWord, ToNumber;
  }

  lemma WordAndNumber(w: Word)
    ensures ToWord(ToNumber(w)) == w
  {
  }

  lemma SmallNumbers()
    ensures ToNumber(W(0)) == 0 && ToNumber(W(3)) == 3 && ToNumber(W(128)) == 128 && ToNumber(W(256)) == 256
    ensures ToNumber(W(0x101_0040)) == 0x101_0040 && ToNumber(W(0x101_4040)) == 0x101_4040
    ensures ToNumber(W(0x63_6261)) == 0x63_6261
  {
  }

  /** Small numbers as words. */
  lemma SmallWords()
    ensures ToWord(0) == W(0) && ToWord(3) == W(3) && ToWord(128) == W(128) && ToWord(256) == W(256)
    ensures ToWord(0x101_0040) == W(0x101_0040) && ToWord(0x101_4040) == W(0x101_4040)
    ensures ToWord(0x63_6261) == W(0x63_6261)
  {
    hide ToWord, ToNumber;
    SmallNumbers();
    WordOf(W(0), 0);
    WordOf(W(3), 3);
    WordOf(W(128), 128);
    WordOf(W(256), 256);
    WordOf(W(0x101_0040), 0x101_0040);
    WordOf(W(0x101_4040), 0x101_4040);
    WordOf(W(0x63_6261), 0x63_6261);
  }

  lemma InitialIs(keyLen: nat)
    requires keyLen <= 64
    ensures InitialWords(64, keyLen)
         == Words(IV_LO.(w0 := Xor(IV_LO.w0, ToWord(0x101_0000 + 0x100 * keyLen + 64))), IV_HI)
  {
    hide Xor, ToWord;
    IvIs();
  }

  lemma InitialUnkeyed()
    ensures InitialWords(64, 0) == Words(UNKEYED_LO, UNKEYED_HI)
  {
    hide ToWord, InitialWords, Words;
    SmallWords();
    InitialIs(0);
  }

  lemma InitialKeyed()
    ensures InitialWords(64, 64) == Words(KEYED_LO, KEYED_HI)
  {
    hide ToWord, InitialWords, Words;
    SmallWords();
    InitialIs(64);
  }

  lemma AbcStarts()
    ensures Started(UNKEYED_LO, UNKEYED_HI, Counting(3, true)) == A0
  {
    hide ToWord;
    SmallWords();
    assert Counting(3, true) == Tweak(3, 0, ONES, ZERO);
    hide Counting;
  }

  lemma AbcEnds()
    ensures EndLo(UNKEYED_LO, A12) == ABC_LO && EndHi(UNKEYED_HI, A12) == ABC_HI
  {
  }

  lemma AbcCompress(m: seq<Word>)
    requires IsAbc(m)
    ensures |m| == 16 && Compress(Words(UNKEYED_LO, UNKEYED_HI), Counting(3, true), m) == Words(ABC_LO, ABC_HI)
  {
    hide IsAbc, Compress, Rounds, WorkVector, Xor, Holds, Counting, Started, Words, EndLo, EndHi;
    AbcLength(m);
    AbcStarts();
    StartedHolds(UNKEYED_LO, UNKEYED_HI, Counting(3, true));
    AbcRounds(WorkVector(Words(UNKEYED_LO, UNKEYED_HI), Counting(3, true)), m);
    CompressIs(UNKEYED_LO, UNKEYED_HI, Counting(3, true), m, A12);
    AbcEnds();
  }

  lemma KeyStarts()
    ensures Started(KEYED_LO, KEYED_HI, Counting(128, false)) == K0
  {
    hide ToWord;
    SmallWords();
    assert Counting(128, false) == Tweak(128, 0, ZERO, ZERO);
    hide Counting;
  }

  lemma KeyEnds()
    ensures EndLo(KEYED_LO, K12) == CHAINED_LO && EndHi(KEYED_HI, K12) == CHAINED_HI
  {
  }

  lemma KeyCompress(m: seq<Word>)
    requires IsKey(m)
    ensures |m| == 16 && Compress(Words(KEYED_LO, KEYED_HI), Counting(128, false), m) == Words(CHAINED_LO, CHAINED_HI)
  {
    hide IsKey, Compress, Rounds, WorkVector, Xor, Holds, Counting, Started, Words, EndLo, EndHi;
    KeyLength(m);
    KeyStarts();
    StartedHolds(KEYED_LO, KEYED_HI, Counting(128, false));
    KeyRounds(WorkVector(Words(KEYED_LO, KEYED_HI), Counting(128, false)), m);
    CompressIs(KEYED_LO, KEYED_HI, Counting(128, false), m, K12);
    KeyEnds();
  }

  lemma BlockStarts()
    ensures Started(CHAINED_LO, CHAINED_HI, Counting(256, true)) == B0
  {
    hide ToWord;
    SmallWords();
    assert Counting(256, true) == Tweak(256, 0, ONES, ZERO);
    hide Counting;
  }

  lemma BlockEnds()
    ensures EndLo(CHAINED_LO, B12) == LAST_LO && EndHi(CHAINED_HI, B12) == LAST_HI
  {
  }

  lemma BlockCompress(m: seq<Word>)
    requires IsBlock(m)
    ensures |m| == 16 && Compress(Words(CHAINED_LO, CHAINED_HI), Counting(256, true), m) == Words(LAST_LO, LAST_HI)
  {
    hide IsBlock, Compress, Rounds, WorkVector, Xor, Holds, Counting, Started, Words, EndLo, EndHi;
    BlockLength(m);
    BlockStarts();
    StartedHolds(CHAINED_LO, CHAINED_HI, Counting(256, true));
    BlockRounds(WorkVector(Words(CHAINED_LO, CHAINED_HI), Counting(256, true)), m);
    CompressIs(CHAINED_LO, CHAINED_HI, Counting(256, true), m, B12);
    BlockEnds();
  }

  // ---------------------------------------------------------------------------
  // Messages
  // ---------------------------------------------------------------------------

  const ABC: seq<u8> := [0x61, 0x62, 0x63]

  /** The bytes 0, 1, 2, ... */
  function FirstBytes(n: nat): (b: seq<u8>)
    requires n <= 256
    ensures |b| == n
  {
    seq(n, i requires 0 <= i < n => i)
  }

  lemma WordAt(block: seq<u8>, i: nat)
    requires |block| == 128 && i < 16
    ensures var b := block[8 * i..8 * i + 8];
            MessageWords(block)[i] == ToWord(LeWord(b))
            && LeWord(b) == Eight(b[0], b[1], b[2], b[3], b[4], b[5], b[6], b[7])
  {
    hide ToWord, LeWord, Eight;
    EightBytes(block[8 * i..8 * i + 8]);
  }

  lemma AbcNumber()
    ensures Eight(0x61, 0x62, 0x63, 0, 0, 0, 0, 0) == 0x63_6261 && Eight(0, 0, 0, 0, 0, 0, 0, 0) == 0
  {
  }

  lemma AbcWordAt(i: nat)
    requires i < 16
    ensures MessageWords(Pad(ABC))[i] == if i == 0 then W(0x63_6261) else W(0)
  {
    hide ToWord, LeWord, Eight, MessageWords;
    WordAt(Pad(ABC), i);
    AbcNumber();
    SmallWords();
    var b := Pad(ABC)[8 * i..8 * i + 8];
    assert i > 0 ==> b[0] == b[1] == b[2] == 0;
    assert b[3] == b[4] == b[5] == b[6] == b[7] == 0;
  }

  lemma AbcMessage()
    ensures IsAbc(MessageWords(Pad(ABC)))
  {
    hide MessageWords;
    var m := MessageWords(Pad(ABC));
    assert forall i :: 0 <= i < 16 ==> m[i] == if i == 0 then W(0x63_6261) else W(0) by {
      forall i | 0 <= i < 16
        ensures m[i] == if i == 0 then W(0x63_6261) else W(0)
      {
        AbcWordAt(i);
      }
    }
  }

  /** Word `i` of the bytes 0, 1, 2, ... */
  function CountNumber(i: nat): (x: u64)
    requires i < 16
  {
    0x0706_0504_0302_0100 + i * 0x0808_0808_0808_0808
  }

  lemma CountWordAt(block: seq<u8>, i: nat)
    requires |block| == 128 && i < 16 && forall j :: 8 * i <= j < 8 * i + 8 ==> block[j] == j
    ensures MessageWords(block)[i] == ToWord(CountNumber(i))
  {
    hide ToWord, LeWord, MessageWords;
    WordAt(block, i);
  }

  lemma ZeroWordAt(block: seq<u8>, i: nat)
    requires |block| == 128 && i < 16 && forall j :: 8 * i <= j < 8 * i + 8 ==> block[j] == 0
    ensures MessageWords(block)[i] == W(0)
  {
    hide ToWord, LeWord, MessageWords, Eight;
    WordAt(block, i);
    AbcNumber();
    SmallWords();
  }

  lemma CountValues0()
    ensures ToNumber(W(0x0706050403020100)) == 0x0706050403020100
    ensures ToNumber(W(0x0f0e0d0c0b0a0908)) == 0x0f0e0d0c0b0a0908
    ensures ToNumber(W(0x1716151413121110)) == 0x1716151413121110
    ensures ToNumber(W(0x1f1e1d1c1b1a1918)) == 0x1f1e1d1c1b1a1918
  {
  }

  lemma CountWords0()
    ensures ToWord(CountNumber(0)) == W(0x0706050403020100)
    ensures ToWord(CountNumber(1)) == W(0x0f0e0d0c0b0a0908)
    ensures ToWord(CountNumber(2)) == W(0x1716151413121110)
    ensures ToWord(CountNumber(3)) == W(0x1f1e1d1c1b1a1918)
  {
    hide ToWord, ToNumber;
    CountValues0();
    WordOf(W(0x0706050403020100), 0x0706050403020100);
    WordOf(W(0x0f0e0d0c0b0a0908), 0x0f0e0d0c0b0a0908);
    WordOf(W(0x1716151413121110), 0x1716151413121110);
    WordOf(W(0x1f1e1d1c1b1a1918), 0x1f1e1d1c1b1a1918);
  }

  lemma CountValues1()
    ensures ToNumber(W(0x2726252423222120)) == 0x2726252423222120
    ensures ToNumber(W(0x2f2e2d2c2b2a2928)) == 0x2f2e2d2c2b2a2928
    ensures ToNumber(W(0x3736353433323130)) == 0x3736353433323130
    ensures ToNumber(W(0x3f3e3d3c3b3a3938)) == 0x3f3e3d3c3b3a3938
  {
  }

  lemma CountWords1()
    ensures ToWord(CountNumber(4)) == W(0x2726252423222120)
    ensures ToWord(CountNumber(5)) == W(0x2f2e2d2c2b2a2928)
    ensures ToWord(CountNumber(6)) == W(0x3736353433323130)
    ensures ToWord(CountNumber(7)) == W(0x3f3e3d3c3b3a3938)
  {
    hide ToWord, ToNumber;
    CountValues1();
    WordOf(W(0x2726252423222120), 0x2726252423222120);
    WordOf(W(0x2f2e2d2c2b2a2928), 0x2f2e2d2c2b2a2928);
    WordOf(W(0x3736353433323130), 0x3736353433323130);
    WordOf(W(0x3f3e3d3c3b3a3938), 0x3f3e3d3c3b3a3938);
  }

  lemma CountValues2()
    ensures ToNumber(W(0x4746454443424140)) == 0x4746454443424140
    ensures ToNumber(W(0x4f4e4d4c4b4a4948)) == 0x4f4e4d4c4b4a4948
    ensures ToNumber(W(0x5756555453525150)) == 0x5756555453525150
    ensures ToNumber(W(0x5f5e5d5c5b5a5958)) == 0x5f5e5d5c5b5a5958
  {
  }

  lemma CountWords2()
    ensures ToWord(CountNumber(8)) == W(0x4746454443424140)
    ensures ToWord(CountNumber(9)) == W(0x4f4e4d4c4b4a4948)
    ensures ToWord(CountNumber(10)) == W(0x5756555453525150)
    ensures ToWord(CountNumber(11)) == W(0x5f5e5d5c5b5a5958)
  {
    hide ToWord, ToNumber;
    CountValues2();
    WordOf(W(0x4746454443424140), 0x4746454443424140);
    WordOf(W(0x4f4e4d4c4b4a4948), 0x4f4e4d4c4b4a4948);
    WordOf(W(0x5756555453525150), 0x5756555453525150);
    WordOf(W(0x5f5e5d5c5b5a5958), 0x5f5e5d5c5b5a5958);
  }

  lemma CountValues3()
    ensures ToNumber(W(0x6766656463626160)) == 0x6766656463626160
    ensures ToNumber(W(0x6f6e6d6c6b6a6968)) == 0x6f6e6d6c6b6a6968
    ensures ToNumber(W(0x7776757473727170)) == 0x7776757473727170
    ensures ToNumber(W(0x7f7e7d7c7b7a7978)) == 0x7f7e7d7c7b7a7978
  {
  }

  lemma CountWords3()
    ensures ToWord(CountNumber(12)) == W(0x6766656463626160)
    ensures ToWord(CountNumber(13)) == W(0x6f6e6d6c6b6a6968)
    ensures ToWord(CountNumber(14)) == W(0x7776757473727170)
    ensures ToWord(CountNumber(15)) == W(0x7f7e7d7c7b7a7978)
  {
    hide ToWord, ToNumber;
    CountValues3();
    WordOf(W(0x6766656463626160), 0x6766656463626160);
    WordOf(W(0x6f6e6d6c6b6a6968), 0x6f6e6d6c6b6a6968);
    WordOf(W(0x7776757473727170), 0x7776757473727170);
    WordOf(W(0x7f7e7d7c7b7a7978), 0x7f7e7d7c7b7a7978);
  }

  lemma KeyMessage()
    ensures IsKey(MessageWords(Pad(FirstBytes(64))))
  {
    hide MessageWords, ToWord, CountNumber;
    var block := Pad(FirstBytes(64));
    CountWords0();
    CountWords1();
    CountWordAt(block, 0);
    CountWordAt(block, 1);
    CountWordAt(block, 2);
    CountWordAt(block, 3);
    CountWordAt(block, 4);
    CountWordAt(block, 5);
    CountWordAt(block, 6);
    CountWordAt(block, 7);
    ZeroWordAt(block, 8);
    ZeroWordAt(block, 9);
    ZeroWordAt(block, 10);
    ZeroWordAt(block, 11);
    ZeroWordAt(block, 12);
    ZeroWordAt(block, 13);
    ZeroWordAt(block, 14);
    ZeroWordAt(block, 15);
  }

  lemma BlockMessage()
    ensures IsBlock(MessageWords(FirstBytes(128)))
  {
    hide MessageWords, ToWord, CountNumber;
    var block := FirstBytes(128);
    CountWords0();
    CountWords1();
    CountWords2();
    CountWords3();
    CountWordAt(block, 0);
    CountWordAt(block, 1);
    CountWordAt(block, 2);
    CountWordAt(block, 3);
    CountWordAt(block, 4);
    CountWordAt(block, 5);
    CountWordAt(block, 6);
    CountWordAt(block, 7);
    CountWordAt(block, 8);
    CountWordAt(block, 9);
    CountWordAt(block, 10);
    CountWordAt(block, 11);
    CountWordAt(block, 12);
    CountWordAt(block, 13);
    CountWordAt(block, 14);
    CountWordAt(block, 15);
  }

  // ---------------------------------------------------------------------------
  // Digests
  // ---------------------------------------------------------------------------

  /** Concatenation, kept as it is while the words are put together. */
  function Then(a: seq<u8>, b: seq<u8>): seq<u8> { a + b }

  function EightPieces(a: seq<u8>, b: seq<u8>, c: seq<u8>, d: seq<u8>,
                       e: seq<u8>, f: seq<u8>, g: seq<u8>, h: seq<u8>): seq<u8>
  {
    Then(Then(Then(Then(Then(Then(Then(a, b), c), d), e), f), g), h)
  }

  function FirstWords(h: seq<u64>, n: nat): seq<u8>
    requires n <= |h|
  {
    WordsToBytes(h[..n])
  }

  lemma OneWord(h: seq<u64>)
    requires |h| >= 1
    ensures FirstWords(h, 1) == LeBytes(h[0], 8)
  {
    hide LeBytes;
    assert h[..1][..0] == [];
    assert WordsToBytes([]) == [];
    assert [] + LeBytes(h[0], 8) == LeBytes(h[0], 8);
  }

  lemma MoreWords(h: seq<u64>, n: nat)
    requires 1 <= n < |h|
    ensures FirstWords(h, n + 1) == Then(FirstWords(h, n), LeBytes(h[n], 8))
  {
    hide LeBytes;
    assert h[..n + 1][..n] == h[..n];
  }

  lemma EightWords(h: seq<u64>)
    requires |h| == 8
    ensures WordsToBytes(h) == EightPieces(LeBytes(h[0], 8), LeBytes(h[1], 8), LeBytes(h[2], 8), LeBytes(h[3], 8),
                                           LeBytes(h[4], 8), LeBytes(h[5], 8), LeBytes(h[6], 8), LeBytes(h[7], 8))
  {
    assert h[..8] == h;
    assert FirstWords(h, 8) == WordsToBytes(h);
    hide LeBytes, WordsToBytes, Then, FirstWords;
    OneWord(h);
    MoreWords(h, 1);
    MoreWords(h, 2);
    MoreWords(h, 3);
    MoreWords(h, 4);
    MoreWords(h, 5);
    MoreWords(h, 6);
    MoreWords(h, 7);
  }

  lemma NumbersOf(lo: Row, hi: Row)
    ensures Numbers(Words(lo, hi)) == [ToNumber(lo.w0), ToNumber(lo.w1), ToNumber(lo.w2), ToNumber(lo.w3),
                                       ToNumber(hi.w0), ToNumber(hi.w1), ToNumber(hi.w2), ToNumber(hi.w3)]
  {
    hide ToNumber;
  }

  lemma WordBytes(x: u64, b: seq<u8>)
    requires |b| == 8 && x == Eight(b[0], b[1], b[2], b[3], b[4], b[5], b[6], b[7])
    ensures LeBytes(x, 8) == b
  {
    hide LeBytes, LeValue, Eight;
    EightBytes(b);
    BytesOfValue(b);
  }

  lemma AbcNumbers()
    ensures ToNumber(ABC_LO.w0) == 0x0d4d1c983fa580ba
    ensures ToNumber(ABC_LO.w1) == 0xe9f6129fb697276a
    ensures ToNumber(ABC_LO.w2) == 0xb7c45a68142f214c
    ensures ToNumber(ABC_LO.w3) == 0xd1a2ffdb6fbb124b
    ensures ToNumber(ABC_HI.w0) == 0x2d79ab2a39c5877d
    ensures ToNumber(ABC_HI.w1) == 0x95cc3345ded552c2
    ensures ToNumber(ABC_HI.w2) == 0x5a92f1dba88ad318
    ensures ToNumber(ABC_HI.w3) == 0x239900d4ed8623b9
  {
  }

  lemma AbcLoBytes()
    ensures LeBytes(ToNumber(ABC_LO.w0), 8) == [0xba, 0x80, 0xa5, 0x3f, 0x98, 0x1c, 0x4d, 0x0d]
    ensures LeBytes(ToNumber(ABC_LO.w1), 8) == [0x6a, 0x27, 0x97, 0xb6, 0x9f, 0x12, 0xf6, 0xe9]
    ensures LeBytes(ToNumber(ABC_LO.w2), 8) == [0x4c, 0x21, 0x2f, 0x14, 0x68, 0x5a, 0xc4, 0xb7]
    ensures LeBytes(ToNumber(ABC_LO.w3), 8) == [0x4b, 0x12, 0xbb, 0x6f, 0xdb, 0xff, 0xa2, 0xd1]
  {
    hide LeBytes, ToNumber;
    AbcNumbers();
    WordBytes(0x0d4d1c983fa580ba, [0xba, 0x80, 0xa5, 0x3f, 0x98, 0x1c, 0x4d, 0x0d]);
    WordBytes(0xe9f6129fb697276a, [0x6a, 0x27, 0x97, 0xb6, 0x9f, 0x12, 0xf6, 0xe9]);
    WordBytes(0xb7c45a68142f214c, [0x4c, 0x21, 0x2f, 0x14, 0x68, 0x5a, 0xc4, 0xb7]);
    WordBytes(0xd1a2ffdb6fbb124b, [0x4b, 0x12, 0xbb, 0x6f, 0xdb, 0xff, 0xa2, 0xd1]);
  }

  lemma AbcHiBytes()
    ensures LeBytes(ToNumber(ABC_HI.w0), 8) == [0x7d, 0x87, 0xc5, 0x39, 0x2a, 0xab, 0x79, 0x2d]
    ensures LeBytes(ToNumber(ABC_HI.w1), 8) == [0xc2, 0x52, 0xd5, 0xde, 0x45, 0x33, 0xcc, 0x95]
    ensures LeBytes(ToNumber(ABC_HI.w2), 8) == [0x18, 0xd3, 0x8a, 0xa8, 0xdb, 0xf1, 0x92, 0x5a]
    ensures LeBytes(ToNumber(ABC_HI.w3), 8) == [0xb9, 0x23, 0x86, 0xed, 0xd4, 0x00, 0x99, 0x23]
  {
    hide LeBytes, ToNumber;
    AbcNumbers();
    WordBytes(0x2d79ab2a39c5877d, [0x7d, 0x87, 0xc5, 0x39, 0x2a, 0xab, 0x79, 0x2d]);
    WordBytes(0x95cc3345ded552c2, [0xc2, 0x52, 0xd5, 0xde, 0x45, 0x33, 0xcc, 0x95]);
    WordBytes(0x5a92f1dba88ad318, [0x18, 0xd3, 0x8a, 0xa8, 0xdb, 0xf1, 0x92, 0x5a]);
    WordBytes(0x239900d4ed8623b9, [0xb9, 0x23, 0x86, 0xed, 0xd4, 0x00, 0x99, 0x23]);
  }

  lemma LastNumbers()
    ensures ToNumber(LAST_LO.w0) == 0xd8c291dde45e0672
    ensures ToNumber(LAST_LO.w1) == 0x7f7ca328fca19f50
    ensures ToNumber(LAST_LO.w2) == 0xd0d38a3f5b7dfac9
    ensures ToNumber(LAST_LO.w3) == 0x441b7bb52656a2d7
    ensures ToNumber(LAST_HI.w0) == 0x42906280af4c8d78
    ensures ToNumber(LAST_HI.w1) == 0x905aa3a2a390985f
    ensures ToNumber(LAST_HI.w2) == 0x6edad0cf7ab3b45a
    ensures ToNumber(LAST_HI.w3) == 0xe451965c52b21745
  {
  }

  lemma LastLoBytes()
    ensures LeBytes(ToNumber(LAST_LO.w0), 8) == [0x72, 0x06, 0x5e, 0xe4, 0xdd, 0x91, 0xc2, 0xd8]
    ensures LeBytes(ToNumber(LAST_LO.w1), 8) == [0x50, 0x9f, 0xa1, 0xfc, 0x28, 0xa3, 0x7c, 0x7f]
    ensures LeBytes(ToNumber(LAST_LO.w2), 8) == [0xc9, 0xfa, 0x7d, 0x5b, 0x3f, 0x8a, 0xd3, 0xd0]
    ensures LeBytes(ToNumber(LAST_LO.w3), 8) == [0xd7, 0xa2, 0x56, 0x26, 0xb5, 0x7b, 0x1b, 0x44]
  {
    hide LeBytes, ToNumber;
    LastNumbers();
    WordBytes(0xd8c291dde45e0672, [0x72, 0x06, 0x5e, 0xe4, 0xdd, 0x91, 0xc2, 0xd8]);
    WordBytes(0x7f7ca328fca19f50, [0x50, 0x9f, 0xa1, 0xfc, 0x28, 0xa3, 0x7c, 0x7f]);
    WordBytes(0xd0d38a3f5b7dfac9, [0xc9, 0xfa, 0x7d, 0x5b, 0x3f, 0x8a, 0xd3, 0xd0]);
    WordBytes(0x441b7bb52656a2d7, [0xd7, 0xa2, 0x56, 0x26, 0xb5, 0x7b, 0x1b, 0x44]);
  }

  lemma LastHiBytes()
    ensures LeBytes(ToNumber(LAST_HI.w0), 8) == [0x78, 0x8d, 0x4c, 0xaf, 0x80, 0x62, 0x90, 0x42]
    ensures LeBytes(ToNumber(LAST_HI.w1), 8) == [0x5f, 0x98, 0x90, 0xa3, 0xa2, 0xa3, 0x5a, 0x90]
    ensures LeBytes(ToNumber(LAST_HI.w2), 8) == [0x5a, 0xb4, 0xb3, 0x7a, 0xcf, 0xd0, 0xda, 0x6e]
    ensures LeBytes(ToNumber(LAST_HI.w3), 8) == [0x45, 0x17, 0xb2, 0x52, 0x5c, 0x96, 0x51, 0xe4]
  {
    hide LeBytes, ToNumber;
    LastNumbers();
    WordBytes(0x42906280af4c8d78, [0x78, 0x8d, 0x4c, 0xaf, 0x80, 0x62, 0x90, 0x42]);
    WordBytes(0x905aa3a2a390985f, [0x5f, 0x98, 0x90, 0xa3, 0xa2, 0xa3, 0x5a, 0x90]);
    WordBytes(0x6edad0cf7ab3b45a, [0x5a, 0xb4, 0xb3, 0x7a, 0xcf, 0xd0, 0xda, 0x6e]);
    WordBytes(0xe451965c52b21745, [0x45, 0x17, 0xb2, 0x52, 0x5c, 0x96, 0x51, 0xe4]);
  }

  /** A digest is its last chaining value, word by word. */
  lemma DigestWords(keyLen: nat, absorbed: seq<u8>, lo: Row, hi: Row)
    requires keyLen <= 64 && FinalWords(InitialWords(64, keyLen), absorbed) == Words(lo, hi)
    ensures DigestOf(64, keyLen, absorbed) ==
      EightPieces(LeBytes(ToNumber(lo.w0), 8), LeBytes(ToNumber(lo.w1), 8),
                  LeBytes(ToNumber(lo.w2), 8), LeBytes(ToNumber(lo.w3), 8),
                  LeBytes(ToNumber(hi.w0), 8), LeBytes(ToNumber(hi.w1), 8),
                  LeBytes(ToNumber(hi.w2), 8), LeBytes(ToNumber(hi.w3), 8))
  {
    hide LeBytes, ToNumber, Numbers, WordsToBytes, Words, InitialWords, FinalWords, EightPieces;
    NumbersOf(lo, hi);
    EightWords(Numbers(Words(lo, hi)));
    var b := WordsToBytes(Numbers(Words(lo, hi)));
    assert |b| == 64;
    assert b[..64] == b;
  }

  lemma AbcFinal()
    ensures FinalWords(InitialWords(64, 0), ABC) == Words(ABC_LO, ABC_HI)
  {
    hide Words, InitialWords, Compress, MessageWords, Pad, Counting, IsAbc;
    AbcMessage();
    AbcCompress(MessageWords(Pad(ABC)));
    InitialUnkeyed();
    assert ABC[0..] == ABC;
  }

  /** Appendix A of RFC 7693: the digest of "abc". */
  lemma AbcDigest()
    ensures Digest(64, [], ABC) ==
      [0xba, 0x80, 0xa5, 0x3f, 0x98, 0x1c, 0x4d, 0x0d]
      + [0x6a, 0x27, 0x97, 0xb6, 0x9f, 0x12, 0xf6, 0xe9]
      + [0x4c, 0x21, 0x2f, 0x14, 0x68, 0x5a, 0xc4, 0xb7]
      + [0x4b, 0x12, 0xbb, 0x6f, 0xdb, 0xff, 0xa2, 0xd1]
      + [0x7d, 0x87, 0xc5, 0x39, 0x2a, 0xab, 0x79, 0x2d]
      + [0xc2, 0x52, 0xd5, 0xde, 0x45, 0x33, 0xcc, 0x95]
      + [0x18, 0xd3, 0x8a, 0xa8, 0xdb, 0xf1, 0x92, 0x5a]
      + [0xb9, 0x23, 0x86, 0xed, 0xd4, 0x00, 0x99, 0x23]
  {
    hide LeBytes, ToNumber, Words, InitialWords, FinalWords, DigestOf;
    assert KeyBlock([]) + ABC == ABC;
    AbcFinal();
    DigestWords(0, ABC, ABC_LO, ABC_HI);
    AbcLoBytes();
    AbcHiBytes();
  }

  lemma KeyedFinal()
    ensures FinalWords(InitialWords(64, 64), KeyBlock(FirstBytes(64)) + FirstBytes(128)) == Words(LAST_LO, LAST_HI)
  {
    hide Words, InitialWords, Compress, MessageWords, Counting, IsKey, IsBlock;
    var key, data := Pad(FirstBytes(64)), FirstBytes(128);
    var total := KeyBlock(FirstBytes(64)) + data;
    assert total == key + data && |total| == 256;
    assert total[0..128] == key && total[128..] == data;
    assert Pad(data) == data;
    hide Pad, FirstBytes;
    KeyMessage();
    KeyCompress(MessageWords(key));
    BlockMessage();
    BlockCompress(MessageWords(data));
    InitialKeyed();
    var h := InitialWords(64, 64);
    assert Absorb(h, total, 0) == h;
    assert Absorb(h, total, 1) == Words(CHAINED_LO, CHAINED_HI);
    hide Absorb;
  }

  /** A digest with a key: two blocks, the second full and all of its words different. */
  lemma KeyedDigest()
    ensures Digest(64, FirstBytes(64), FirstBytes(128)) ==
      [0x72, 0x06, 0x5e, 0xe4, 0xdd, 0x91, 0xc2, 0xd8]
      + [0x50, 0x9f, 0xa1, 0xfc, 0x28, 0xa3, 0x7c, 0x7f]
      + [0xc9, 0xfa, 0x7d, 0x5b, 0x3f, 0x8a, 0xd3, 0xd0]
      + [0xd7, 0xa2, 0x56, 0x26, 0xb5, 0x7b, 0x1b, 0x44]
      + [0x78, 0x8d, 0x4c, 0xaf, 0x80, 0x62, 0x90, 0x42]
      + [0x5f, 0x98, 0x90, 0xa3, 0xa2, 0xa3, 0x5a, 0x90]
      + [0x5a, 0xb4, 0xb3, 0x7a, 0xcf, 0xd0, 0xda, 0x6e]
      + [0x45, 0x17, 0xb2, 0x52, 0x5c, 0x96, 0x51, 0xe4]
  {
    hide LeBytes, ToNumber, Words, InitialWords, FinalWords, DigestOf, KeyBlock, FirstBytes;
    KeyedFinal();
    DigestWords(64, KeyBlock(FirstBytes(64)) + FirstBytes(128), LAST_LO, LAST_HI);
    LastLoBytes();
    LastHiBytes();
  }
}
