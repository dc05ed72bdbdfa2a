/** The compressions behind two published answers, computed on 32-bit vectors: SHA-256 of "abc", and
    test case 2 of section 4.3 of RFC 4231 for HMAC-SHA-256. */
module KnownBlocks {
  import opened Fips180Bits

  const START := Registers(
    0x6a09e667, 0xbb67ae85, 0x3c6ef372, 0xa54ff53a, 0x510e527f, 0x9b05688c, 0x1f83d9ab, 0x5be0cd19)

  // ---- The message "abc".

  const ABC_WORDS_0 := Words(
    0x61626380, 0x00000000, 0x00000000, 0x00000000, 0x00000000, 0x00000000, 0x00000000, 0x00000000,
    0x00000000, 0x00000000, 0x00000000, 0x00000000, 0x00000000, 0x00000000, 0x00000000, 0x00000018)
  const ABC_WORDS_16 := Words(
    0x61626380, 0x000f0000, 0x7da86405, 0x600003c6, 0x3e9d7b78, 0x0183fc00, 0x12dcbfdb, 0xe2e2c38e,
    0xc8215c1a, 0xb73679a2, 0xe5bc3909, 0x32663c5b, 0x9d209d67, 0xec8726cb, 0x702138a4, 0xd3b7973b)
  const ABC_WORDS_32 := Words(
    0x93f5997f, 0x3b68ba73, 0xaff4ffc1, 0xf10a5c62, 0x0a8b3996, 0x72af830a, 0x9409e33e, 0x24641522,
    0x9f47bf94, 0xf0a64f5a, 0x3e246a79, 0x27333ba3, 0x0c4763f2, 0x840abf27, 0x7a290d5d, 0x065c43da)
  const ABC_WORDS_48 := Words(
    0xfb3e89cb, 0xcc7617db, 0xb9e66c34, 0xa9993667, 0x84badedd, 0xc21462bc, 0x1487472c, 0xb20f7a99,
    0xef57b9cd, 0xebe6b238, 0x9fe3095e, 0x78bc8d4b, 0xa43fcf15, 0x668b2ff8, 0xeeaba2cc, 0x12b1edeb)
  const ABC_AFTER_16 := Registers(
    0xb0fa238e, 0xc0645fde, 0xd932eb16, 0x87912990, 0x07590dcd, 0x0b92f20c, 0x745a48de, 0x1e578218)
  const ABC_AFTER_32 := Registers(
    0x73b33bf5, 0xea992a22, 0xa0060b30, 0x363482c9, 0xba591112, 0x0109ab3a, 0xade79437, 0x6112a3b7)
  const ABC_AFTER_48 := Registers(
    0x4172328d, 0xa14c14b0, 0x72ab4b91, 0x26628815, 0xfecf0bc6, 0xd57b94a9, 0xb7755da1, 0xa80f11f0)
  const ABC_AFTER_64 := Registers(
    0x506e3058, 0xd39a2165, 0x04d24d6c, 0xb85e2ce9, 0x5ef50f24, 0xfb121210, 0x948d25b6, 0x961f4894)
  const ABC_HASH := Registers(
    0xba7816bf, 0x8f01cfea, 0x414140de, 0x5dae2223, 0xb00361a3, 0x96177a9c, 0xb410ff61, 0xf20015ad)

  lemma AbcWords()
    ensures NextWords(ABC_WORDS_0) == ABC_WORDS_16 && NextWords(ABC_WORDS_16) == ABC_WORDS_32
    ensures NextWords(ABC_WORDS_32) == ABC_WORDS_48
  {
  }

  lemma AbcRounds()
    ensures SixteenRounds(START, ABC_WORDS_0, FIRST) == ABC_AFTER_16
    ensures SixteenRounds(ABC_AFTER_16, ABC_WORDS_16, SECOND) == ABC_AFTER_32
  {
  }

  lemma AbcLastRounds()
    ensures SixteenRounds(ABC_AFTER_32, ABC_WORDS_32, THIRD) == ABC_AFTER_48
    ensures SixteenRounds(ABC_AFTER_48, ABC_WORDS_48, FOURTH) == ABC_AFTER_64
  {
  }

  lemma AbcBlock()
    ensures CompressBlock(START, ABC_WORDS_0) == ABC_HASH
  {
    hide NextWords, SixteenRounds;
    AbcWords();
    AbcRounds();
    AbcLastRounds();
  }

  // ---- The inner hash's first block.

  const INNER_WORDS_0 := Words(
    0x7c535053, 0x36363636, 0x36363636, 0x36363636, 0x36363636, 0x36363636, 0x36363636, 0x36363636,
    0x36363636, 0x36363636, 0x36363636, 0x36363636, 0x36363636, 0x36363636, 0x36363636, 0x36363636)
  const INNER_WORDS_16 := Words(
    0x7780fe00, 0x3163e3e3, 0xb47168a2, 0xe11539f8, 0xecfba47f, 0x8f8ebd79, 0xfa1ec89e, 0x1e0e70f6,
    0x0c23673e, 0xc8311559, 0xddee66a1, 0xb28ed337, 0xac9fc9a9, 0xcb4db29d, 0x59369281, 0xe32830f3)
  const INNER_WORDS_32 := Words(
    0x136f5555, 0x377ff55a, 0x4aa3e0f1, 0x9d19ff47, 0x926e254f, 0x39c2254f, 0x2731f000, 0x2bd17abc,
    0xf96d6a27, 0x6686c278, 0x616aea0c, 0xb308442a, 0x5d1a34ff, 0xca7159c9, 0xd99ebf95, 0xe1a34c15)
  const INNER_WORDS_48 := Words(
    0x51dbd4be, 0x7c986d13, 0x71d1a48e, 0x39a42882, 0x53c21066, 0x1d686bfc, 0x7682d688, 0xc08ab048,
    0xf41238c8, 0x94e252cd, 0x485d2762, 0xe20b3ab9, 0x8e7ad67d, 0xda8d1cc5, 0xb0eeaf96, 0x8739d375)
  const INNER_AFTER_16 := Registers(
    0xd8a297b3, 0x32f91b02, 0x0aae579f, 0x07f487ee, 0x40743133, 0x22d64e87, 0x4b6881fa, 0x426da4d5)
  const INNER_AFTER_32 := Registers(
    0xeaa1ecb4, 0x078f5fb6, 0xf09b0708, 0xedf2ce47, 0xc6426440, 0x905c490a, 0x67e97303, 0xf09bbf76)
  const INNER_AFTER_48 := Registers(
    0x750ed7b4, 0x6531bcdc, 0xb803f3e1, 0x5cd1d6ed, 0xe2cdce6a, 0xa1815b66, 0xa7e30631, 0x13126373)
  const INNER_AFTER_64 := Registers(
    0xfb53c193, 0x10db9cb2, 0x1dade259, 0x6142f8d4, 0x536bd154, 0xb1358bbd, 0xbc1e4137, 0x1ce682f3)
  const INNER_HASH := Registers(
    0x655da7fa, 0xcc434b37, 0x5a1cd5cb, 0x0692ee0e, 0xa47a23d3, 0x4c3af449, 0xdba21ae2, 0x78c7500c)

  lemma InnerWords()
    ensures NextWords(INNER_WORDS_0) == INNER_WORDS_16 && NextWords(INNER_WORDS_16) == INNER_WORDS_32
    ensures NextWords(INNER_WORDS_32) == INNER_WORDS_48
  {
  }

  lemma InnerRounds()
    ensures SixteenRounds(START, INNER_WORDS_0, FIRST) == INNER_AFTER_16
    ensures SixteenRounds(INNER_AFTER_16, INNER_WORDS_16, SECOND) == INNER_AFTER_32
  {
  }

  lemma InnerLastRounds()
    ensures SixteenRounds(INNER_AFTER_32, INNER_WORDS_32, THIRD) == INNER_AFTER_48
    ensures SixteenRounds(INNER_AFTER_48, INNER_WORDS_48, FOURTH) == INNER_AFTER_64
  {
  }

  lemma InnerBlock()
    ensures CompressBlock(START, INNER_WORDS_0) == INNER_HASH
  {
    hide NextWords, SixteenRounds;
    InnerWords();
    InnerRounds();
    InnerLastRounds();
  }

  // ---- Its second block.

  const TEXT_WORDS_0 := Words(
    0x77686174, 0x20646f20, 0x79612077, 0x616e7420, 0x666f7220, 0x6e6f7468, 0x696e673f, 0x80000000,
    0x00000000, 0x00000000, 0x00000000, 0x00000000, 0x00000000, 0x00000000, 0x00000000, 0x000002e0)
  const TEXT_WORDS_16 := Words(
    0xd6ecae97, 0xcb53a736, 0x0df4d52e, 0x99470585, 0x56ac588f, 0xbaf46d24, 0x21b274b4, 0x120525d6,
    0x40189fa8, 0x444a1f39, 0xf57833ad, 0xa316f0ba, 0xda928743, 0xc8153509, 0xe63c58e9, 0x9b063401)
  const TEXT_WORDS_32 := Words(
    0x5fb8701b, 0x06610ac3, 0xc09ff909, 0x1a6d0e91, 0x67b9d8fd, 0xb9251d58, 0x7b42c482, 0x1e4fcbae,
    0x7f18d3ae, 0x6b3e02aa, 0x60acd3cc, 0x09230471, 0xcf103ae0, 0xff3e7122, 0xbc028b24, 0x31f8a0a0)
  const TEXT_WORDS_48 := Words(
    0xa4405ebd, 0xa126f06e, 0x5140b18d, 0x0f9727bc, 0x96dc649b, 0xa7105035, 0x1955553f, 0x4cbc81fd,
    0xf9992590, 0x2d78b115, 0x48b2660c, 0xc566eb38, 0xbc4719f4, 0xbd8f6578, 0xe71fceb9, 0x023dd359)
  const TEXT_AFTER_16 := Registers(
    0xbf4e7f46, 0xd0e32bb8, 0xf5842695, 0x09eca57c, 0xda0d8141, 0x0000f140, 0x053ab6db, 0xb6e243b9)
  const TEXT_AFTER_32 := Registers(
    0x3eebaf95, 0xa80d8d52, 0x578885a2, 0xfd6b63f2, 0x76edd9cf, 0x71d96c70, 0x9f3a120e, 0xb908e6ba)
  const TEXT_AFTER_48 := Registers(
    0x18eae95d, 0xc30b4900, 0xb5486ab0, 0x9f6132f2, 0x68e92552, 0x2580f283, 0x521dd93c, 0xb871c7e5)
  const TEXT_AFTER_64 := Registers(
    0x3d86dd8c, 0x70e4aea1, 0x0a8fb7b5, 0x1d9fb3df, 0xa3036879, 0x22f9a8cd, 0xf945ce35, 0x4d627acb)
  const TEXT_HASH := Registers(
    0xa2e48586, 0x3d27f9d8, 0x64ac8d80, 0x2432a1ed, 0x477d8c4c, 0x6f349d16, 0xd4e7e917, 0xc629cad7)

  lemma TextWords()
    ensures NextWords(TEXT_WORDS_0) == TEXT_WORDS_16 && NextWords(TEXT_WORDS_16) == TEXT_WORDS_32
    ensures NextWords(TEXT_WORDS_32) == TEXT_WORDS_48
  {
  }

  lemma TextRounds()
    ensures SixteenRounds(INNER_HASH, TEXT_WORDS_0, FIRST) == TEXT_AFTER_16
    ensures SixteenRounds(TEXT_AFTER_16, TEXT_WORDS_16, SECOND) == TEXT_AFTER_32
  {
  }

  lemma TextLastRounds()
    ensures SixteenRounds(TEXT_AFTER_32, TEXT_WORDS_32, THIRD) == TEXT_AFTER_48
    ensures SixteenRounds(TEXT_AFTER_48, TEXT_WORDS_48, FOURTH) == TEXT_AFTER_64
  {
  }

  lemma TextBlock()
    ensures CompressBlock(INNER_HASH, TEXT_WORDS_0) == TEXT_HASH
  {
    hide NextWords, SixteenRounds;
    TextWords();
    TextRounds();
    TextLastRounds();
  }

  // ---- The outer hash's first block.

  const OUTER_WORDS_0 := Words(
    0x16393a39, 0x5c5c5c5c, 0x5c5c5c5c, 0x5c5c5c5c, 0x5c5c5c5c, 0x5c5c5c5c, 0x5c5c5c5c, 0x5c5c5c5c,
    0x5c5c5c5c, 0x5c5c5c5c, 0x5c5c5c5c, 0x5c5c5c5c, 0x5c5c5c5c, 0x5c5c5c5c, 0x5c5c5c5c, 0x5c5c5c5c)
  const OUTER_WORDS_16 := Words(
    0xbc6c6d6b, 0x028f8f8e, 0x18148f7c, 0x93133fd1, 0x33346707, 0x55131c00, 0x1c4c8fc1, 0xaa8252d7,
    0xd92fce9a, 0x7bb09081, 0xb23c3c92, 0x8e036611, 0xef8b1cd6, 0xfcb68659, 0x98cd1c4a, 0xa514d1ce)
  const OUTER_WORDS_32 := Words(
    0x655e9871, 0x80b14e30, 0xc3f7e470, 0x235e01a7, 0x0b79c2d8, 0x51112a82, 0xc947e091, 0x9d17222d,
    0x8fead71a, 0xf1240136, 0xf2403484, 0x911ae6e0, 0x6b8481a7, 0xb6c12283, 0xc47d12e8, 0x32b8fe41)
  const OUTER_WORDS_48 := Words(
    0xa4366b12, 0xd4bab7a3, 0x18198b37, 0x5dc30ab5, 0xfb56e209, 0xbc47b487, 0x298fa38f, 0xff6df23c,
    0xfded1548, 0x6b3181fd, 0xe2eea69e, 0xe11be15d, 0x08859856, 0xfacb39cf, 0xfeb10bf2, 0xd790cd34)
  const OUTER_AFTER_16 := Registers(
    0xe7b8b56f, 0x5e3eeba7, 0xdf63a889, 0xa1a61c47, 0x85ada43a, 0x7a1a23a6, 0x1f4a0977, 0xc247b35e)
  const OUTER_AFTER_32 := Registers(
    0x223781a1, 0x466a3c05, 0x33c6b89d, 0x66159104, 0x28c05066, 0x34384529, 0xe1e1a8b5, 0xb7b33477)
  const OUTER_AFTER_48 := Registers(
    0x835aa22a, 0xe65638ea, 0x5009f43b, 0x5b5a8b27, 0x354edc49, 0xee6c6342, 0x466cefd5, 0x0fb4d10f)
  const OUTER_AFTER_64 := Registers(
    0xa4a5fd6e, 0x57d97fe7, 0x2dfb3c79, 0x87e76592, 0x0096aac8, 0xd2ab2d5c, 0x043bc7df, 0xf71074bc)
  const OUTER_HASH := Registers(
    0x0eafe3d5, 0x13412e6c, 0x6a6a2feb, 0x2d375acc, 0x51a4fd47, 0x6db095e8, 0x23bfa18a, 0x52f141d5)

  lemma OuterWords()
    ensures NextWords(OUTER_WORDS_0) == OUTER_WORDS_16 && NextWords(OUTER_WORDS_16) == OUTER_WORDS_32
    ensures NextWords(OUTER_WORDS_32) == OUTER_WORDS_48
  {
  }

  lemma OuterRounds()
    ensures SixteenRounds(START, OUTER_WORDS_0, FIRST) == OUTER_AFTER_16
    ensures SixteenRounds(OUTER_AFTER_16, OUTER_WORDS_16, SECOND) == OUTER_AFTER_32
  {
  }

  lemma OuterLastRounds()
    ensures SixteenRounds(OUTER_AFTER_32, OUTER_WORDS_32, THIRD) == OUTER_AFTER_48
    ensures SixteenRounds(OUTER_AFTER_48, OUTER_WORDS_48, FOURTH) == OUTER_AFTER_64
  {
  }

  lemma OuterBlock()
    ensures CompressBlock(START, OUTER_WORDS_0) == OUTER_HASH
  {
    hide NextWords, SixteenRounds;
    OuterWords();
    OuterRounds();
    OuterLastRounds();
  }

  // ---- Its second block.

  const MAC_WORDS_0 := Words(
    0xa2e48586, 0x3d27f9d8, 0x64ac8d80, 0x2432a1ed, 0x477d8c4c, 0x6f349d16, 0xd4e7e917, 0xc629cad7,
    0x80000000, 0x00000000, 0x00000000, 0x00000000, 0x00000000, 0x00000000, 0x00000000, 0x00000300)
  const MAC_WORDS_16 := Words(
    0xec8d4507, 0x6e44cb58, 0xe57a2e78, 0x1481a913, 0xa0c51e3a, 0x20542d99, 0xc7d6bc99, 0x572ed109,
    0x7832fa16, 0x982a793e, 0x36d9a8b4, 0x1463b3c8, 0x01955976, 0x776eccea, 0x5f84771d, 0x7b31f508)
  const MAC_WORDS_32 := Words(
    0xc9f4aee0, 0xd055fb5c, 0x0b79d67f, 0x7fe06bb1, 0x27530bc7, 0x3cdd17eb, 0xd3a5276a, 0xe79ef353,
    0x70708e40, 0x503a442e, 0x8c04f280, 0x60a9ae13, 0x8edf61fe, 0x5a70bc6a, 0x06d8cf63, 0x2866cc9d)
  const MAC_WORDS_48 := Words(
    0x7608691a, 0xa7182225, 0x1dc70eca, 0x6c947dd1, 0x7c97dcae, 0x7b09005f, 0x19d1e2a0, 0xab60d9da,
    0xac37d412, 0x1236e096, 0x4a8a3d6d, 0xbe58c2f1, 0x53d27161, 0xe25a87a5, 0xb53d7e5f, 0x0828fce9)
  const MAC_AFTER_16 := Registers(
    0x524a1ef8, 0x8777eeed, 0x9af3cfc9, 0xb3f53c2a, 0x2e2fafb1, 0x6a605c43, 0x661ce7b3, 0xac6ca791)
  const MAC_AFTER_32 := Registers(
    0xf5637c6b, 0x6a101e8a, 0x88ff9220, 0x804e3e18, 0x36193288, 0xad346d31, 0x90550f47, 0x2b124b23)
  const MAC_AFTER_48 := Registers(
    0x5ab28db9, 0xa4d05bd3, 0x0795c206, 0x31c61bbf, 0x4504e9e3, 0xc04b2c11, 0xb061e903, 0x9b30b56e)
  const MAC_AFTER_64 := Registers(
    0x4d2cdd71, 0xac1f46e2, 0xff99f43b, 0xdb5e1afb, 0x085b41c1, 0x2f76a39b, 0x7a2cb72f, 0x11faf66e)
  const MAC_HASH := Registers(
    0x5bdcc146, 0xbf60754e, 0x6a042426, 0x089575c7, 0x5a003f08, 0x9d273983, 0x9dec58b9, 0x64ec3843)

  lemma MacWords()
    ensures NextWords(MAC_WORDS_0) == MAC_WORDS_16 && NextWords(MAC_WORDS_16) == MAC_WORDS_32
    ensures NextWords(MAC_WORDS_32) == MAC_WORDS_48
  {
  }

  lemma MacRounds()
    ensures SixteenRounds(OUTER_HASH, MAC_WORDS_0, FIRST) == MAC_AFTER_16
    ensures SixteenRounds(MAC_AFTER_16, MAC_WORDS_16, SECOND) == MAC_AFTER_32
  {
  }

  lemma MacLastRounds()
    ensures SixteenRounds(MAC_AFTER_32, MAC_WORDS_32, THIRD) == MAC_AFTER_48
    ensures SixteenRounds(MAC_AFTER_48, MAC_WORDS_48, FOURTH) == MAC_AFTER_64
  {
  }

  lemma MacBlock()
    ensures CompressBlock(OUTER_HASH, MAC_WORDS_0) == MAC_HASH
  {
    hide NextWords, SixteenRounds;
    MacWords();
    MacRounds();
    MacLastRounds();
  }
}
