/** The specification gives a published answer: BLAKE2b under the key 00..3f of the message 00..7f. Two blocks,
    so the key block, the counter, the finalization mask, all twelve rounds and every message word take part. */
module KnownAnswer {
  import opened Words
  import opened Rfc7693
  import opened Quads
  import opened Params

  function ByteOf(i: nat): Byte
    requires i < 256
  {
    i as Byte
  }

  /** The bytes 00, 01, 02, ... */
  function Sequential(n: nat): (b: seq<Byte>)
    requires n <= 256
    ensures |b| == n
  {
    seq(n, i requires 0 <= i < n => ByteOf(i))
  }

  /** The published digest, eight bytes to a row. */
  const ANSWER: seq<seq<Byte>> := [
    [0x72, 0x06, 0x5e, 0xe4, 0xdd, 0x91, 0xc2, 0xd8],
    [0x50, 0x9f, 0xa1, 0xfc, 0x28, 0xa3, 0x7c, 0x7f],
    [0xc9, 0xfa, 0x7d, 0x5b, 0x3f, 0x8a, 0xd3, 0xd0],
    [0xd7, 0xa2, 0x56, 0x26, 0xb5, 0x7b, 0x1b, 0x44],
    [0x78, 0x8d, 0x4c, 0xaf, 0x80, 0x62, 0x90, 0x42],
    [0x5f, 0x98, 0x90, 0xa3, 0xa2, 0xa3, 0x5a, 0x90],
    [0x5a, 0xb4, 0xb3, 0x7a, 0xcf, 0xd0, 0xda, 0x6e],
    [0x45, 0x17, 0xb2, 0x52, 0x5c, 0x96, 0x51, 0xe4]]

  const KEY_WORDS: Work := [
    0x0706050403020100, 0x0f0e0d0c0b0a0908, 0x1716151413121110, 0x1f1e1d1c1b1a1918,
    0x2726252423222120, 0x2f2e2d2c2b2a2928, 0x3736353433323130, 0x3f3e3d3c3b3a3938,
    0x0000000000000000, 0x0000000000000000, 0x0000000000000000, 0x0000000000000000,
    0x0000000000000000, 0x0000000000000000, 0x0000000000000000, 0x0000000000000000]

  const TEXT_WORDS: Work := [
    0x0706050403020100, 0x0f0e0d0c0b0a0908, 0x1716151413121110, 0x1f1e1d1c1b1a1918,
    0x2726252423222120, 0x2f2e2d2c2b2a2928, 0x3736353433323130, 0x3f3e3d3c3b3a3938,
    0x4746454443424140, 0x4f4e4d4c4b4a4948, 0x5756555453525150, 0x5f5e5d5c5b5a5958,
    0x6766656463626160, 0x6f6e6d6c6b6a6968, 0x7776757473727170, 0x7f7e7d7c7b7a7978]

  const H0: Hash := [
    0x6a09e667f2bd8948, 0xbb67ae8584caa73b, 0x3c6ef372fe94f82b, 0xa54ff53a5f1d36f1,
    0x510e527fade682d1, 0x9b05688c2b3e6c1f, 0x1f83d9abfb41bd6b, 0x5be0cd19137e2179]

  const H1: Hash := [
    0xff3e48ac606d2724, 0x2b6d0f03be548f10, 0xff2d7f8bccfba4b8, 0x72deac9005e263eb,
    0xe6d620e38bba2bf1, 0x33164736804d08f5, 0xdbf004f0c01f6df4, 0xbc02b6384c348cde]

  const H2: Hash := [
    0xd8c291dde45e0672, 0x7f7ca328fca19f50, 0xd0d38a3f5b7dfac9, 0x441b7bb52656a2d7,
    0x42906280af4c8d78, 0x905aa3a2a390985f, 0x6edad0cf7ab3b45a, 0xe451965c52b21745]

  // The working vector of the key block, and after each round.
  const A0: Work := [
    0x6a09e667f2bd8948, 0xbb67ae8584caa73b, 0x3c6ef372fe94f82b, 0xa54ff53a5f1d36f1,
    0x510e527fade682d1, 0x9b05688c2b3e6c1f, 0x1f83d9abfb41bd6b, 0x5be0cd19137e2179,
    0x6a09e667f3bcc908, 0xbb67ae8584caa73b, 0x3c6ef372fe94f82b, 0xa54ff53a5f1d36f1,
    0x510e527fade68251, 0x9b05688c2b3e6c1f, 0x1f83d9abfb41bd6b, 0x5be0cd19137e2179]
  const A1: Work := [
    0x113f4711f6370dda, 0xc1e8e9f6ece8a4c8, 0xbc0e32ce6ce52ae8, 0x21acd1149aed697d,
    0x16f72fc9d031db29, 0x0787928649aa6d20, 0x8a80eb13dbef3382, 0x3f2d5afa4c542c9b,
    0x0f9c03270fd6e278, 0xf0ffccadca751ade, 0x1cfb0531c1b6252b, 0xfeb29bd3e125866a,
    0xadf236960d2c63c5, 0xbd90f2e99528b09d, 0xd8efa5a4cc15ec13, 0x950083c41ad2f90c]
  const A2: Work := [
    0xbdc373ef66cb7b77, 0x124becb53559433c, 0x93387b2cf1f780e2, 0xdbbb553f3158ebd2,
    0x030f307e8cd0e0fa, 0x249f863e6a33d122, 0x8368830aa49ed717, 0x1407bebba5ac2f87,
    0x4c93194367d0d11a, 0x868cfcacd4fc6a71, 0x75bb885fff867705, 0x214d4a44796fdc58,
    0x90970c0ccd236260, 0xfa34b940c28cd7b0, 0xfce2fb65f6c0abaa, 0x42615ffad815452d]
  const A3: Work := [
    0x66b715424dcef6b1, 0x76f6bc5381336e7b, 0xcde03d6e2b9ceaf2, 0xb3070d1803331f5e,
    0x46357167320ac361, 0x6cb583a541907920, 0xb9c9ac917f1c4068, 0x5ee956c17a16697d,
    0xd0d5c66f9d779281, 0x47e26bc608c45fc9, 0x51f4be35ff3f72d1, 0xa17e3aee3ce3d68e,
    0x4dd0a782fb84edd2, 0x597870a679cf6436, 0xbb558b64a3f40690, 0xc131260b218be31d]
  const A4: Work := [
    0x4772be211e80165a, 0x145e5ce3bb8abf21, 0x7cd2d87e5e8f0888, 0xf2615f68baf34393,
    0xfae32ad7cf673259, 0xdd9cd02c651895ae, 0xec85863c74373ba3, 0x30923e54c7df9a01,
    0x0bb61c5101a3a46d, 0xaedb47f7190226ff, 0x3eaf5129092fd356, 0x58eafff248c62464,
    0x87210f56ecddd80c, 0x9bab24bf32ec6510, 0x692b8d08d2adfa43, 0xc0500264027019db]
  const A5: Work := [
    0xa31ce8b789eb8b45, 0xd13e2a430a774d37, 0xfeae41386cf1cc2e, 0x1489ae0a73d47143,
    0x7cf994549c40c2e4, 0x635f66b5fce71ac0, 0x43cf2b55774306d7, 0x09fc734a93b40402,
    0xf3795418ad36609d, 0x1ad58c9282082e29, 0x35e0a68227691c0e, 0x30bc34cb374207ed,
    0x0df60ce123f7c280, 0x9ae2aa3e7590bcb1, 0xcb1944d0cf267113, 0x1764183358176d0d]
  const A6: Work := [
    0x54bc14aa79a42e3d, 0x6c5a3a963579e9a8, 0x32fd795e5c348d22, 0xb7003fae6b5481ef,
    0xeea54f4a03823036, 0x1a2f9d07a1b0a351, 0x9a608aa767cdff46, 0xb23b3d78a932d8b5,
    0x1c42cd310d73566b, 0x5fb69f2c9077e76a, 0xe720c28a1119d59a, 0x032266528bfb192c,
    0x9e636f402d1ea00c, 0xada7d7161ffb680f, 0x2700c23b1add71eb, 0xb4eb6b1c7ea34268]
  const A7: Work := [
    0xcd9ce40a846e7198, 0xcadfadb2041ca623, 0xd4a1201e173dca0a, 0x464d850dc0637b38,
    0x46b0671a6442fe5a, 0x32932b7f1a9be9f9, 0x990581f58f68b806, 0x57b5ec40feab1938,
    0xd875c1eaad1f7dc9, 0xc1eb603dbf4d8e30, 0x56e74054b7413aa8, 0x8df9397b73ce5d80,
    0x08edba8b7ded6069, 0x4aaa47be54bf3e33, 0x16782b5ac10552c3, 0xafea225ee5c0f24b]
  const A8: Work := [
    0x306e659a67c067ad, 0xf9cd5197a9931da1, 0xf9e1c37b15edd9f8, 0xf8bdb71145d34770,
    0x42ae0145e4f4e1c4, 0x3d1cf37bd17e14b1, 0xa2a12c61ff1d3c93, 0x858df555e3f9f8de,
    0x92abe25095b3337d, 0x370498139bd22667, 0x60d4bceb65a6176e, 0x2515e5e0cc358aec,
    0xa680c9b3e08389c2, 0x8e42618668b91583, 0xcabc52037c654624, 0x2d48a30d10b8ccf9]
  const A9: Work := [
    0x0992e213b5136654, 0x0a0f3f52fa35f156, 0x304f07ac9d247a03, 0x4f352cb7eda150f3,
    0xcfad8f27231c8d57, 0xc8dadf20d9e2f418, 0x51ec084ca82cd893, 0xb69e60baae35f5f6,
    0xeaecc7fd5c37bc7c, 0x710a8ce6ea2c3b95, 0x050d6a869ce51979, 0xf6a8017a0a604e0d,
    0x8933e56c98e6b307, 0xb80bebc086053ee2, 0x3801b52cc243f3b2, 0xa17c0b869693388c]
  const A10: Work := [
    0xe8712eed9cf6ff93, 0xeb151c4e1c3c282f, 0x1ce8e841fb507039, 0x22b7731fb082b2eb,
    0x12884cfedcb81015, 0x9dff8f648758d9ef, 0x2a37425f23632156, 0x95cb711f30518798,
    0x6eba01667a16ee8c, 0x8c28ec26ff9e91b0, 0xcaf14febf4bbf06d, 0x64c0cc4b70856bf0,
    0x6e3b9c8d66206219, 0xeaa94dd529abac70, 0x3899c20a7fff52e3, 0x6557c1efafaa2f46]
  const A11: Work := [
    0xadc5159f855c462e, 0xb34456d2631ebd91, 0x8e67eff61be28df7, 0x1dba981d815046e1,
    0x0eaf37b0f3e7ba4e, 0xe52633a75f77fa91, 0x830d8c10e40f76df, 0x459994d1764f49e3,
    0xe7111574d382b666, 0x3859abfcf0c64d35, 0x7d2a6b0b6175e236, 0xf90a261ba62be313,
    0xa596e59f16f70731, 0x3832889d45f3d068, 0x8ae0e2f8e07f910c, 0x0bfe34da4c60477d]
  const A12: Work := [
    0x61583f17f6eeb0de, 0x6d4a906972cf180b, 0xccfc325dad2b7c13, 0xf615a222cdf72f91,
    0xe3a82664afcdf619, 0x1ca1ece5f9fe9da5, 0x802b4a97fcdab01a, 0x2fbf59e0f1415a79,
    0xf46f91dc643e1eb2, 0xfd4031ef48513020, 0x0fbfbea49f442080, 0x2184fb8897087a8b,
    0x547054f889915f39, 0xb4b2c35f528df94f, 0x445897ccc7846085, 0xc85d22c1ae0bf7de]

  // The working vector of the text block, and after each round.
  const B0: Work := [
    0xff3e48ac606d2724, 0x2b6d0f03be548f10, 0xff2d7f8bccfba4b8, 0x72deac9005e263eb,
    0xe6d620e38bba2bf1, 0x33164736804d08f5, 0xdbf004f0c01f6df4, 0xbc02b6384c348cde,
    0x6a09e667f3bcc908, 0xbb67ae8584caa73b, 0x3c6ef372fe94f82b, 0xa54ff53a5f1d36f1,
    0x510e527fade683d1, 0x9b05688c2b3e6c1f, 0xe07c265404be4294, 0x5be0cd19137e2179]
  const B1: Work := [
    0x6c767fd391751d1f, 0xcd02f213f54c0765, 0xfdf2f7bdfdd60133, 0xe8f3ac7fc16f56fb,
    0x4b698dd6163d5666, 0x12d44cc6f9843ca9, 0xc28d19207d8fa2ca, 0xbfc1e50d9eb9eb50,
    0x373f2d639a487f02, 0x5a8ec85d71e60fe7, 0xdefd39f7ddaad9d1, 0xaec0af4af012dc4b,
    0x52205130e70a7bff, 0x118b95de4402b290, 0x3f6392a0ab283cb4, 0x5ca815f40ab0d003]
  const B2: Work := [
    0xd768da42f8303ef0, 0x2114ee3a1c8b6b73, 0x3f6d202167406660, 0xbf9479cda25ff70b,
    0xf6221ab3928943a3, 0x14fbd62a8316dcd2, 0x715e5383e6943062, 0xd82b06eb797d743f,
    0xf7f8c007769645f8, 0xe40fcefc528c8eee, 0x53c939c3bddc0d8a, 0xa7ac55198c7c1a65,
    0xc3a41ab7b9fb4a18, 0x8b9cc3e81b37f6fe, 0x65d6e82dade9dfb2, 0x2b520850c3f1d6fd]
  const B3: Work := [
    0xd679aefb786c950d, 0xb89bb369b9780627, 0xd80e5c4587d1aeeb, 0xe53078e02c900028,
    0x2b69911a92f03efd, 0xc04fb509149754bd, 0xa36be730e5538dcc, 0xe734b39dc4057c28,
    0x5bf96c9bd3eb8b9f, 0xe86b82cbad6bc016, 0x6821de5f338c18c6, 0x036a118c601f2763,
    0x1b134cde43f7b93a, 0xbc1fc13e8409e5e2, 0x4a3c3a0e77b554df, 0xed11cfb29fd5592f]
  const B4: Work := [
    0xbacc2a61d4db6583, 0xaba122ef5c354916, 0xa62ddf52113aa69c, 0xdf29efa8be4236cf,
    0xa8572378c68278db, 0xd8fff318d5ee21cb, 0xd05299e633dacac6, 0x0d6c359c7325c8ec,
    0xb880000a55f7b441, 0x1de13b31aef83a54, 0x159ee26d1e3ddde8, 0xcfaeca6b136fdaf5,
    0x76874151857ca43c, 0xc85d9fd019c0e8b2, 0xe35e1454d302cc06, 0xffbef8eac47acbfd]
  const B5: Work := [
    0xbe560a543d9ade7b, 0x53ae1cbc852ee864, 0xc87c74a4b74c265a, 0x3aa0ae63d72ca7d8,
    0x311975d2dc33c67b, 0x970cdbeefaac369c, 0xa283a97ee257b5c6, 0x5549b970ee7d40e0,
    0x14980973b40de7e3, 0x4d18eb3875e472fb, 0x089d582cf0423fe0, 0x46661fa689145387,
    0x41e0fa66c8a18cc4, 0x6307703abb7dea11, 0x52b442f17df313f9, 0xf2d7fdef05461bfa]
  const B6: Work := [
    0x35c701913ab678eb, 0x326c96406c2d9eac, 0xf21e0ca66901146c, 0x0ff79e1cd61fc809,
    0x36d69ff944b6b7a3, 0x29953fef798854cd, 0x94d425ee2941c0a0, 0xf58c62975a977a14,
    0x2ecd5b14e3bc8d9a, 0x049d3eead3261cad, 0x0ccfea59d8d8bf24, 0xd6e280141c4133da,
    0x02a106e620ab9b48, 0xc0e3115eb7e24aba, 0x829d28b9e6653811, 0x16040bdc23d85f43]
  const B7: Work := [
    0x12139e41ac14e740, 0xdd908ad6a9504a5f, 0x814fe379bc2a77f9, 0x1d700992ac6d8b9b,
    0x338ca84617466a9f, 0xc23254a7722e4599, 0xa676115f17ca2393, 0xf202ca86145d35ce,
    0xb6de9646f394b5c9, 0x90067d2ab1a46611, 0x08df7ef5f8ff2c35, 0xa5091bb880bbf13c,
    0x08f46003f9d21f0c, 0x6e11d830a32beae9, 0x16b17dcf4eee41ec, 0x6702457f2ce9d286]
  const B8: Work := [
    0x242b98ddd8da896c, 0x06be2bccf6b7db96, 0xdeb7f5c530704321, 0x7ad7f9a3d5eea628,
    0x0ff372186cf1efaa, 0x5fbcd1887a84c336, 0x3806d4e661537296, 0x9d1ce921c4355e08,
    0x0eedadd509a9749d, 0x7f9c778e0c9c4110, 0x2bf3cfe77f9ab1d2, 0xaf8a901903100095,
    0xdeef4c26921ce00b, 0xa01f789204ad4e57, 0xfeef9b0ecea6f67e, 0x03b8393c557429c1]
  const B9: Work := [
    0x63f69d6ca4d08fd7, 0x5222770d7f917db6, 0xeeeac23829154660, 0x030809f943e87a9b,
    0x249c13b18db76a4e, 0x2bbd2008d5fcb8b6, 0x34dcb12c7f6e64fb, 0xe9e0990c910c49ac,
    0xc99c300dca07e306, 0xe0f5b6cdf3e8bb4b, 0x1e7717cb4facede1, 0xe9635874f5adffb1,
    0xd2f8a3ce8506b2db, 0xbd222ee6b35be262, 0x37c58b697059f66f, 0x8ace8c94ed9f4946]
  const B10: Work := [
    0x5e32a7f363bf73a7, 0x9164f3aa84440a79, 0xa887a4b731c64bea, 0x8600b58a2e91b03a,
    0xc8a0e823742318ba, 0x489c75a95693c33d, 0x19c0b7a4bb2b3d47, 0x94ef5ed94a794f82,
    0x069902a6233b591c, 0xd72532a84f097543, 0xae593b8b1b2b25ab, 0x7edef70d6f9c6f7f,
    0x7e121e7827b06088, 0x098bc7b7cf421ac2, 0xd79b95d1c9dadf43, 0x1d6bfa09afbfc2e9]
  const B11: Work := [
    0x692fa9c2a690c4f2, 0x5c1db817426ec52b, 0xb05fa194d5cef301, 0x5c0f9af34eafe7e6,
    0x861eb22db6dc40ca, 0x9d201699d64bdae9, 0xf91f2ff73673c7a8, 0x12b52aa662de31f7,
    0x05bad0f689b0f333, 0x2d4780179073d436, 0x952dce7f5976aaf2, 0x767c8df39c9db62d,
    0x1a290876cd017aac, 0x79090fea915f23e1, 0x59fbcb34c35839ec, 0x74e31633a4849d35]
  const B12: Work := [
    0x738372909d21b47d, 0x4d306985477363fe, 0xf590153a896bdf2a, 0x337a99cd15abed0f,
    0x8809599b58286f36, 0xab843cdbe1478a3b, 0x892e9e80e2ab47eb, 0x9349fb9055a0a965,
    0x547fabe11912952b, 0x1921c5ae058673be, 0xda6ee08e1eed815b, 0x05bf4ee8361f2c33,
    0x2c4f1bf87cdec9bf, 0x08c8d84fc29a1a91, 0x3c044abf58079e45, 0xcb1adbf44b2632fe]

  /** One round on a literal vector. */
  lemma RoundA0()
    ensures Round(A0, KEY_WORDS, SIGMA0) == A1
  {
    hide Columns, Diagonals;
    ColumnsAre(A0, KEY_WORDS, SIGMA0);
    DiagonalsAre(Columns(A0, KEY_WORDS, SIGMA0), KEY_WORDS, SIGMA0);
  }

  lemma RoundA1()
    ensures Round(A1, KEY_WORDS, SIGMA1) == A2
  {
    hide Columns, Diagonals;
    ColumnsAre(A1, KEY_WORDS, SIGMA1);
    DiagonalsAre(Columns(A1, KEY_WORDS, SIGMA1), KEY_WORDS, SIGMA1);
  }

  lemma RoundA2()
    ensures Round(A2, KEY_WORDS, SIGMA2) == A3
  {
    hide Columns, Diagonals;
    ColumnsAre(A2, KEY_WORDS, SIGMA2);
    DiagonalsAre(Columns(A2, KEY_WORDS, SIGMA2), KEY_WORDS, SIGMA2);
  }

  lemma RoundA3()
    ensures Round(A3, KEY_WORDS, SIGMA3) == A4
  {
    hide Columns, Diagonals;
    ColumnsAre(A3, KEY_WORDS, SIGMA3);
    DiagonalsAre(Columns(A3, KEY_WORDS, SIGMA3), KEY_WORDS, SIGMA3);
  }

  lemma RoundA4()
    ensures Round(A4, KEY_WORDS, SIGMA4) == A5
  {
    hide Columns, Diagonals;
    ColumnsAre(A4, KEY_WORDS, SIGMA4);
    DiagonalsAre(Columns(A4, KEY_WORDS, SIGMA4), KEY_WORDS, SIGMA4);
  }

  lemma RoundA5()
    ensures Round(A5, KEY_WORDS, SIGMA5) == A6
  {
    hide Columns, Diagonals;
    ColumnsAre(A5, KEY_WORDS, SIGMA5);
    DiagonalsAre(Columns(A5, KEY_WORDS, SIGMA5), KEY_WORDS, SIGMA5);
  }

  lemma RoundA6()
    ensures Round(A6, KEY_WORDS, SIGMA6) == A7
  {
    hide Columns, Diagonals;
    ColumnsAre(A6, KEY_WORDS, SIGMA6);
    DiagonalsAre(Columns(A6, KEY_WORDS, SIGMA6), KEY_WORDS, SIGMA6);
  }

  lemma RoundA7()
    ensures Round(A7, KEY_WORDS, SIGMA7) == A8
  {
    hide Columns, Diagonals;
    ColumnsAre(A7, KEY_WORDS, SIGMA7);
    DiagonalsAre(Columns(A7, KEY_WORDS, SIGMA7), KEY_WORDS, SIGMA7);
  }

  lemma RoundA8()
    ensures Round(A8, KEY_WORDS, SIGMA8) == A9
  {
    hide Columns, Diagonals;
    ColumnsAre(A8, KEY_WORDS, SIGMA8);
    DiagonalsAre(Columns(A8, KEY_WORDS, SIGMA8), KEY_WORDS, SIGMA8);
  }

  lemma RoundA9()
    ensures Round(A9, KEY_WORDS, SIGMA9) == A10
  {
    hide Columns, Diagonals;
    ColumnsAre(A9, KEY_WORDS, SIGMA9);
    DiagonalsAre(Columns(A9, KEY_WORDS, SIGMA9), KEY_WORDS, SIGMA9);
  }

  lemma RoundA10()
    ensures Round(A10, KEY_WORDS, SIGMA0) == A11
  {
    hide Columns, Diagonals;
    ColumnsAre(A10, KEY_WORDS, SIGMA0);
    DiagonalsAre(Columns(A10, KEY_WORDS, SIGMA0), KEY_WORDS, SIGMA0);
  }

  lemma RoundA11()
    ensures Round(A11, KEY_WORDS, SIGMA1) == A12
  {
    hide Columns, Diagonals;
    ColumnsAre(A11, KEY_WORDS, SIGMA1);
    DiagonalsAre(Columns(A11, KEY_WORDS, SIGMA1), KEY_WORDS, SIGMA1);
  }

  lemma RoundB0()
    ensures Round(B0, TEXT_WORDS, SIGMA0) == B1
  {
    hide Columns, Diagonals;
    ColumnsAre(B0, TEXT_WORDS, SIGMA0);
    DiagonalsAre(Columns(B0, TEXT_WORDS, SIGMA0), TEXT_WORDS, SIGMA0);
  }

  lemma RoundB1()
    ensures Round(B1, TEXT_WORDS, SIGMA1) == B2
  {
    hide Columns, Diagonals;
    ColumnsAre(B1, TEXT_WORDS, SIGMA1);
    DiagonalsAre(Columns(B1, TEXT_WORDS, SIGMA1), TEXT_WORDS, SIGMA1);
  }

  lemma RoundB2()
    ensures Round(B2, TEXT_WORDS, SIGMA2) == B3
  {
    hide Columns, Diagonals;
    ColumnsAre(B2, TEXT_WORDS, SIGMA2);
    DiagonalsAre(Columns(B2, TEXT_WORDS, SIGMA2), TEXT_WORDS, SIGMA2);
  }

  lemma RoundB3()
    ensures Round(B3, TEXT_WORDS, SIGMA3) == B4
  {
    hide Columns, Diagonals;
    ColumnsAre(B3, TEXT_WORDS, SIGMA3);
    DiagonalsAre(Columns(B3, TEXT_WORDS, SIGMA3), TEXT_WORDS, SIGMA3);
  }

  lemma RoundB4()
    ensures Round(B4, TEXT_WORDS, SIGMA4) == B5
  {
    hide Columns, Diagonals;
    ColumnsAre(B4, TEXT_WORDS, SIGMA4);
    DiagonalsAre(Columns(B4, TEXT_WORDS, SIGMA4), TEXT_WORDS, SIGMA4);
  }

  lemma RoundB5()
    ensures Round(B5, TEXT_WORDS, SIGMA5) == B6
  {
    hide Columns, Diagonals;
    ColumnsAre(B5, TEXT_WORDS, SIGMA5);
    DiagonalsAre(Columns(B5, TEXT_WORDS, SIGMA5), TEXT_WORDS, SIGMA5);
  }

  lemma RoundB6()
    ensures Round(B6, TEXT_WORDS, SIGMA6) == B7
  {
    hide Columns, Diagonals;
    ColumnsAre(B6, TEXT_WORDS, SIGMA6);
    DiagonalsAre(Columns(B6, TEXT_WORDS, SIGMA6), TEXT_WORDS, SIGMA6);
  }

  lemma RoundB7()
    ensures Round(B7, TEXT_WORDS, SIGMA7) == B8
  {
    hide Columns, Diagonals;
    ColumnsAre(B7, TEXT_WORDS, SIGMA7);
    DiagonalsAre(Columns(B7, TEXT_WORDS, SIGMA7), TEXT_WORDS, SIGMA7);
  }

  lemma RoundB8()
    ensures Round(B8, TEXT_WORDS, SIGMA8) == B9
  {
    hide Columns, Diagonals;
    ColumnsAre(B8, TEXT_WORDS, SIGMA8);
    DiagonalsAre(Columns(B8, TEXT_WORDS, SIGMA8), TEXT_WORDS, SIGMA8);
  }

  lemma RoundB9()
    ensures Round(B9, TEXT_WORDS, SIGMA9) == B10
  {
    hide Columns, Diagonals;
    ColumnsAre(B9, TEXT_WORDS, SIGMA9);
    DiagonalsAre(Columns(B9, TEXT_WORDS, SIGMA9), TEXT_WORDS, SIGMA9);
  }

  lemma RoundB10()
    ensures Round(B10, TEXT_WORDS, SIGMA0) == B11
  {
    hide Columns, Diagonals;
    ColumnsAre(B10, TEXT_WORDS, SIGMA0);
    DiagonalsAre(Columns(B10, TEXT_WORDS, SIGMA0), TEXT_WORDS, SIGMA0);
  }

  lemma RoundB11()
    ensures Round(B11, TEXT_WORDS, SIGMA1) == B12
  {
    hide Columns, Diagonals;
    ColumnsAre(B11, TEXT_WORDS, SIGMA1);
    DiagonalsAre(Columns(B11, TEXT_WORDS, SIGMA1), TEXT_WORDS, SIGMA1);
  }

  lemma RoundsA()
    ensures Rounds(A0, KEY_WORDS, 12) == A12
  {
    hide Round;
    RoundA0(); RoundA1(); RoundA2(); RoundA3();
    RoundA4(); RoundA5(); RoundA6(); RoundA7();
    RoundA8(); RoundA9(); RoundA10(); RoundA11();
    assert Rounds(A0, KEY_WORDS, 4) == A4;
    assert Rounds(A0, KEY_WORDS, 8) == A8;
  }

  lemma RoundsB()
    ensures Rounds(B0, TEXT_WORDS, 12) == B12
  {
    hide Round;
    RoundB0(); RoundB1(); RoundB2(); RoundB3();
    RoundB4(); RoundB5(); RoundB6(); RoundB7();
    RoundB8(); RoundB9(); RoundB10(); RoundB11();
    assert Rounds(B0, TEXT_WORDS, 4) == B4;
    assert Rounds(B0, TEXT_WORDS, 8) == B8;
  }

  // ----- loading -----

  /** The eight bytes from `i`. */
  function Octet(i: nat): (b: seq<Byte>)
    requires i < 249
    ensures |b| == 8
  {
    [ByteOf(i), ByteOf(i + 1), ByteOf(i + 2), ByteOf(i + 3), ByteOf(i + 4), ByteOf(i + 5), ByteOf(i + 6), ByteOf(i + 7)]
  }

  lemma SequentialAt(n: nat, k: nat)
    requires 8 * k + 8 <= n <= 256
    ensures Sequential(n)[8 * k..8 * k + 8]
         == Octet(8 * k)
  {
    hide ByteOf;
  }

  lemma Word0()
    ensures Load64(Octet(0)) == TEXT_WORDS[0]
  {
  }

  lemma Word1()
    ensures Load64(Octet(8)) == TEXT_WORDS[1]
  {
  }

  lemma Word2()
    ensures Load64(Octet(16)) == TEXT_WORDS[2]
  {
  }

  lemma Word3()
    ensures Load64(Octet(24)) == TEXT_WORDS[3]
  {
  }

  lemma Word4()
    ensures Load64(Octet(32)) == TEXT_WORDS[4]
  {
  }

  lemma Word5()
    ensures Load64(Octet(40)) == TEXT_WORDS[5]
  {
  }

  lemma Word6()
    ensures Load64(Octet(48)) == TEXT_WORDS[6]
  {
  }

  lemma Word7()
    ensures Load64(Octet(56)) == TEXT_WORDS[7]
  {
  }

  lemma Word8()
    ensures Load64(Octet(64)) == TEXT_WORDS[8]
  {
  }

  lemma Word9()
    ensures Load64(Octet(72)) == TEXT_WORDS[9]
  {
  }

  lemma Word10()
    ensures Load64(Octet(80)) == TEXT_WORDS[10]
  {
  }

  lemma Word11()
    ensures Load64(Octet(88)) == TEXT_WORDS[11]
  {
  }

  lemma Word12()
    ensures Load64(Octet(96)) == TEXT_WORDS[12]
  {
  }

  lemma Word13()
    ensures Load64(Octet(104)) == TEXT_WORDS[13]
  {
  }

  lemma Word14()
    ensures Load64(Octet(112)) == TEXT_WORDS[14]
  {
  }

  lemma Word15()
    ensures Load64(Octet(120)) == TEXT_WORDS[15]
  {
  }

  lemma SequentialWord(n: nat, k: nat)
    requires 8 * k + 8 <= n <= 128
    ensures Load64(Sequential(n)[8 * k..8 * k + 8]) == TEXT_WORDS[k]
  {
    hide Load64, Sequential, Octet;
    SequentialAt(n, k);
    match k
    case 0 => Word0();
    case 1 => Word1();
    case 2 => Word2();
    case 3 => Word3();
    case 4 => Word4();
    case 5 => Word5();
    case 6 => Word6();
    case 7 => Word7();
    case 8 => Word8();
    case 9 => Word9();
    case 10 => Word10();
    case 11 => Word11();
    case 12 => Word12();
    case 13 => Word13();
    case 14 => Word14();
    case _ => Word15();
  }

  lemma KeyMessage()
    ensures Message(KeyBlock(Sequential(64))) == KEY_WORDS
  {
    hide Load64, Sequential;
    var b := KeyBlock(Sequential(64));
    ZeroWord();
    forall i | 0 <= i < 16
      ensures Load64(b[8 * i..8 * i + 8]) == KEY_WORDS[i]
    {
      if i < 8 {
        SequentialWord(64, i);
        assert b[8 * i..8 * i + 8] == Sequential(64)[8 * i..8 * i + 8];
      } else {
        assert b[8 * i..8 * i + 8] == Zeros(8);
      }
    }
  }

  lemma TextMessage()
    ensures Message(Sequential(128)) == TEXT_WORDS
  {
    hide Load64, Sequential;
    forall i | 0 <= i < 16
      ensures Load64(Sequential(128)[8 * i..8 * i + 8]) == TEXT_WORDS[i]
    {
      SequentialWord(128, i);
    }
  }

  lemma Counters()
    ensures OfValue(0) == 0 && OfValue(64) == 64 && OfValue(128) == 128 && OfValue(256) == 256
  {
    hide LeBytes, Load64;
    SmallBytes(0, 8); SmallBytes(64, 8); SmallBytes(128, 8); SmallBytes(1, 7);
    LowByteFirst(256, 7);
    SmallLoads();
  }

  lemma SmallLoads()
    ensures Load64([0] + Zeros(7)) == 0 && Load64([64] + Zeros(7)) == 64 && Load64([128] + Zeros(7)) == 128
    ensures Load64([0] + ([1] + Zeros(6))) == 256
  {
  }

  // ----- the two compressions -----

  lemma FoldedIs(h: Hash, v: Work, r: Hash)
    requires r[0] == Xor(Xor(h[0], v[0]), v[8]) && r[1] == Xor(Xor(h[1], v[1]), v[9])
    requires r[2] == Xor(Xor(h[2], v[2]), v[10]) && r[3] == Xor(Xor(h[3], v[3]), v[11])
    requires r[4] == Xor(Xor(h[4], v[4]), v[12]) && r[5] == Xor(Xor(h[5], v[5]), v[13])
    requires r[6] == Xor(Xor(h[6], v[6]), v[14]) && r[7] == Xor(Xor(h[7], v[7]), v[15])
    ensures FeedForward(h, v) == r
  {
    hide Xor;
    forall i | 0 <= i < 8
      ensures FeedForward(h, v)[i] == r[i]
    {
      match i
      case 0 => case 1 => case 2 => case 3 => case 4 => case 5 => case 6 => case _ =>
    }
  }

  lemma FirstStart()
    ensures InitialHash(64, 64) == H0 && Start(H0, 128, 0, 0) == A0
  {
    hide OfValue;
    Counters();
  }

  lemma FirstCompression()
    ensures Compress(InitialHash(64, 64), KeyBlock(Sequential(64)), 128, 0, 0) == H1
  {
    hide Rounds, FeedForward, Message, Start, InitialHash, Sequential;
    FirstStart(); KeyMessage(); RoundsA();
    FoldedIs(H0, A12, H1);
  }

  lemma SecondStart()
    ensures Start(H1, 256, 0, ALL_ONES) == B0
  {
    hide OfValue;
    Counters();
  }

  lemma SecondCompression()
    ensures Compress(H1, Sequential(128), 256, 0, ALL_ONES) == H2
  {
    hide Rounds, FeedForward, Message, Start, Sequential;
    SecondStart(); TextMessage(); RoundsB();
    FoldedIs(H1, B12, H2);
  }

  lemma AnswerRow(k: nat)
    requires k < 8
    ensures Store64(H2[k]) == ANSWER[k]
  {
    match k
    case 0 => case 1 => case 2 => case 3 => case 4 => case 5 => case 6 => case _ =>
  }

  lemma HashRow(h: Hash, k: nat)
    requires k < 8
    ensures HashBytes(h)[8 * k..8 * k + 8] == Store64(h[k])
  {
    hide Store64;
  }

  /** BLAKE2b-512 under the key 00..3f of the message 00..7f is the published digest. */
  lemma PublishedAnswer(k: nat)
    requires k < 8
    ensures Blake2b(64, Sequential(64), Sequential(128))[8 * k..8 * k + 8] == ANSWER[k]
  {
    hide Compress, InitialHash, DigestFrom, Sequential, Store64, HashBytes;
    var key, text := Sequential(64), Sequential(128);
    TwoBlocks(Compress, InitialHash(64, 64), KeyBlock(key), text);
    assert text + Zeros(0) == text;
    FirstCompression();
    SecondCompression();
    AnswerRow(k);
    HashRow(H2, k);
  }
}
