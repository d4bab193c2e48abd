/** The digest of "abc", which the tests of the repository promise, out of the recursive standard: the
    schedule in rows of eight words, the rounds four at a time.  What joins the pieces does not look
    into the words. */
module KnownAnswer {
  import opened Fips180
  import opened Sha256

  predicate RowIs<T(==)>(ws: seq<T>, r: nat, row: seq<T>) {
    |row| == 8 && 8 * r + 8 <= |ws| && ws[8 * r..8 * r + 8] == row
  }

  lemma RowAt<T>(ws: seq<T>, r: nat, row: seq<T>, c: nat)
    requires RowIs(ws, r, row) && c < 8
    ensures ws[8 * r + c] == row[c]
  {
    assert ws[8 * r..8 * r + 8][c] == row[c];
  }

  // ----- The message schedule of the one block -----

  const W_0: seq<bv32> := [0x61626380, 0x00000000, 0x00000000, 0x00000000, 0x00000000, 0x00000000, 0x00000000, 0x00000000]
  const W_1: seq<bv32> := [0x00000000, 0x00000000, 0x00000000, 0x00000000, 0x00000000, 0x00000000, 0x00000000, 0x00000018]
  const W_2: seq<bv32> := [0x61626380, 0x000f0000, 0x7da86405, 0x600003c6, 0x3e9d7b78, 0x0183fc00, 0x12dcbfdb, 0xe2e2c38e]
  const W_3: seq<bv32> := [0xc8215c1a, 0xb73679a2, 0xe5bc3909, 0x32663c5b, 0x9d209d67, 0xec8726cb, 0x702138a4, 0xd3b7973b]
  const W_4: seq<bv32> := [0x93f5997f, 0x3b68ba73, 0xaff4ffc1, 0xf10a5c62, 0x0a8b3996, 0x72af830a, 0x9409e33e, 0x24641522]
  const W_5: seq<bv32> := [0x9f47bf94, 0xf0a64f5a, 0x3e246a79, 0x27333ba3, 0x0c4763f2, 0x840abf27, 0x7a290d5d, 0x065c43da]
  const W_6: seq<bv32> := [0xfb3e89cb, 0xcc7617db, 0xb9e66c34, 0xa9993667, 0x84badedd, 0xc21462bc, 0x1487472c, 0xb20f7a99]
  const W_7: seq<bv32> := [0xef57b9cd, 0xebe6b238, 0x9fe3095e, 0x78bc8d4b, 0xa43fcf15, 0x668b2ff8, 0xeeaba2cc, 0x12b1edeb]

  function NextWord(a: bv32, b: bv32, c: bv32, d: bv32): bv32 {
    Add(Add(Add(a, SmallSigma0(b)), c), SmallSigma1(d))
  }

  /** Eight words follow from the sixteen before them, by the rule `f`. */
  predicate NextRow<T(==)>(f: (T, T, T, T) -> T, a: seq<T>, b: seq<T>, next: seq<T>)
    requires |a| == |b| == |next| == 8
  {
    && next[0] == f(a[0], a[1], b[1], b[6])
    && next[1] == f(a[1], a[2], b[2], b[7])
    && next[2] == f(a[2], a[3], b[3], next[0])
    && next[3] == f(a[3], a[4], b[4], next[1])
    && next[4] == f(a[4], a[5], b[5], next[2])
    && next[5] == f(a[5], a[6], b[6], next[3])
    && next[6] == f(a[6], a[7], b[7], next[4])
    && next[7] == f(a[7], b[0], next[0], next[5])
  }

  predicate Step<T(==)>(f: (T, T, T, T) -> T, ws: seq<T>, t: nat) {
    16 <= t < |ws| && ws[t] == f(ws[t - 16], ws[t - 15], ws[t - 7], ws[t - 2])
  }

  ghost predicate Follows<T(!new)>(f: (T, T, T, T) -> T, ws: seq<T>) {
    forall t | 16 <= t < |ws| :: Step(f, ws, t)
  }

  lemma EightSteps<T(!new)>(f: (T, T, T, T) -> T, a: seq<T>, b: seq<T>, c: seq<T>, next: seq<T>)
    requires |a| == |b| == |c| == |next| == 8 && Follows(f, a + b + c) && NextRow(f, a, b, next)
    ensures c == next
  {
    var ws := a + b + c;
    assert Step(f, ws, 16) && Step(f, ws, 17) && Step(f, ws, 18) && Step(f, ws, 19);
    assert c[0] == next[0] && c[1] == next[1] && c[2] == next[2] && c[3] == next[3];
    assert Step(f, ws, 20) && Step(f, ws, 21) && Step(f, ws, 22) && Step(f, ws, 23);
  }

  lemma Window<T(!new)>(f: (T, T, T, T) -> T, ws: seq<T>, t: nat)
    requires Follows(f, ws) && t + 24 <= |ws|
    ensures Follows(f, ws[t..t + 24])
  {
    var part := ws[t..t + 24];
    forall i | 16 <= i < |part| ensures Step(f, part, i) {
      assert Step(f, ws, t + i);
    }
  }

  lemma RowFollows<T(!new)>(f: (T, T, T, T) -> T, ws: seq<T>, r: nat, a: seq<T>, b: seq<T>, next: seq<T>)
    requires Follows(f, ws) && 2 <= r && 8 * r + 8 <= |ws| && RowIs(ws, r - 2, a) && RowIs(ws, r - 1, b)
    requires |next| == 8 && NextRow(f, a, b, next)
    ensures RowIs(ws, r, next)
  {
    var t := 8 * r - 16;
    Window(f, ws, t);
    assert ws[t..t + 24] == ws[t..t + 8] + ws[t + 8..t + 16] + ws[t + 16..t + 24];
    EightSteps(f, a, b, ws[t + 16..t + 24], next);
  }

  lemma NextRow2()
    ensures NextRow(NextWord, W_0, W_1, W_2)
  {
  }

  lemma NextRow3()
    ensures NextRow(NextWord, W_1, W_2, W_3)
  {
  }

  lemma NextRow4()
    ensures NextRow(NextWord, W_2, W_3, W_4)
  {
  }

  lemma NextRow5()
    ensures NextRow(NextWord, W_3, W_4, W_5)
  {
  }

  lemma NextRow6()
    ensures NextRow(NextWord, W_4, W_5, W_6)
  {
  }

  lemma NextRow7()
    ensures NextRow(NextWord, W_5, W_6, W_7)
  {
  }

  lemma WordFollows(m: seq<bv32>, t: nat, a: bv32, b: bv32, c: bv32, d: bv32)
    requires |m| == 16 && 16 <= t < 64 && W(m, t - 16) == a && W(m, t - 15) == b && W(m, t - 7) == c && W(m, t - 2) == d
    ensures W(m, t) == NextWord(a, b, c, d)
  {
  }

  lemma ScheduleFollows(m: seq<bv32>)
    requires |m| == 16
    ensures Follows(NextWord, Schedule(m)) && Schedule(m)[..16] == m
  {
    var ws := Schedule(m);
    forall t | 16 <= t < |ws| ensures Step(NextWord, ws, t) {
      WordFollows(m, t, ws[t - 16], ws[t - 15], ws[t - 7], ws[t - 2]);
    }
  }

  ghost predicate AllRows(ws: seq<bv32>) {
    && RowIs(ws, 0, W_0) && RowIs(ws, 1, W_1) && RowIs(ws, 2, W_2) && RowIs(ws, 3, W_3)
    && RowIs(ws, 4, W_4) && RowIs(ws, 5, W_5) && RowIs(ws, 6, W_6) && RowIs(ws, 7, W_7)
  }

  lemma FirstRows(ws: seq<bv32>)
    requires |ws| == 64 && ws[..16] == W_0 + W_1
    ensures RowIs(ws, 0, W_0) && RowIs(ws, 1, W_1)
  {
    assert ws[0..8] == ws[..16][0..8] == W_0;
    assert ws[8..16] == ws[..16][8..16] == W_1;
  }

  lemma MiddleRows(ws: seq<bv32>)
    requires |ws| == 64 && Follows(NextWord, ws) && RowIs(ws, 0, W_0) && RowIs(ws, 1, W_1)
    ensures RowIs(ws, 2, W_2) && RowIs(ws, 3, W_3) && RowIs(ws, 4, W_4)
  {
    NextRow2();
    RowFollows(NextWord, ws, 2, W_0, W_1, W_2);
    NextRow3();
    RowFollows(NextWord, ws, 3, W_1, W_2, W_3);
    NextRow4();
    RowFollows(NextWord, ws, 4, W_2, W_3, W_4);
  }

  lemma LastRows(ws: seq<bv32>)
    requires |ws| == 64 && Follows(NextWord, ws) && RowIs(ws, 3, W_3) && RowIs(ws, 4, W_4)
    ensures RowIs(ws, 5, W_5) && RowIs(ws, 6, W_6) && RowIs(ws, 7, W_7)
  {
    NextRow5();
    RowFollows(NextWord, ws, 5, W_3, W_4, W_5);
    NextRow6();
    RowFollows(NextWord, ws, 6, W_4, W_5, W_6);
    NextRow7();
    RowFollows(NextWord, ws, 7, W_5, W_6, W_7);
  }

  lemma ScheduleRows(ws: seq<bv32>)
    requires |ws| == 64 && Follows(NextWord, ws) && ws[..16] == W_0 + W_1
    ensures AllRows(ws)
  {
    FirstRows(ws);
    MiddleRows(ws);
    LastRows(ws);
  }

  // ----- The working variables, every four rounds -----

  const S_1 := Words(0x5d6aebcd, 0x6a09e667, 0xbb67ae85, 0x3c6ef372, 0xfa2a4622, 0x510e527f, 0x9b05688c, 0x1f83d9ab)
  const S_2 := Words(0x5a6ad9ad, 0x5d6aebcd, 0x6a09e667, 0xbb67ae85, 0x78ce7989, 0xfa2a4622, 0x510e527f, 0x9b05688c)
  const S_3 := Words(0xc8c347a7, 0x5a6ad9ad, 0x5d6aebcd, 0x6a09e667, 0xf92939eb, 0x78ce7989, 0xfa2a4622, 0x510e527f)
  const S_4 := Words(0xd550f666, 0xc8c347a7, 0x5a6ad9ad, 0x5d6aebcd, 0x24e00850, 0xf92939eb, 0x78ce7989, 0xfa2a4622)
  const S_5 := Words(0x04409a6a, 0xd550f666, 0xc8c347a7, 0x5a6ad9ad, 0x43ada245, 0x24e00850, 0xf92939eb, 0x78ce7989)
  const S_6 := Words(0x2b4209f5, 0x04409a6a, 0xd550f666, 0xc8c347a7, 0x714260ad, 0x43ada245, 0x24e00850, 0xf92939eb)
  const S_7 := Words(0xe5030380, 0x2b4209f5, 0x04409a6a, 0xd550f666, 0x9b27a401, 0x714260ad, 0x43ada245, 0x24e00850)
  const S_8 := Words(0x85a07b5f, 0xe5030380, 0x2b4209f5, 0x04409a6a, 0x0c657a79, 0x9b27a401, 0x714260ad, 0x43ada245)
  const S_9 := Words(0x8e04ecb9, 0x85a07b5f, 0xe5030380, 0x2b4209f5, 0x32ca2d8c, 0x0c657a79, 0x9b27a401, 0x714260ad)
  const S_10 := Words(0x8c87346b, 0x8e04ecb9, 0x85a07b5f, 0xe5030380, 0x1cc92596, 0x32ca2d8c, 0x0c657a79, 0x9b27a401)
  const S_11 := Words(0x4798a3f4, 0x8c87346b, 0x8e04ecb9, 0x85a07b5f, 0x436b23e8, 0x1cc92596, 0x32ca2d8c, 0x0c657a79)
  const S_12 := Words(0xf71fc5a9, 0x4798a3f4, 0x8c87346b, 0x8e04ecb9, 0x816fd6e9, 0x436b23e8, 0x1cc92596, 0x32ca2d8c)
  const S_13 := Words(0x87912990, 0xf71fc5a9, 0x4798a3f4, 0x8c87346b, 0x1e578218, 0x816fd6e9, 0x436b23e8, 0x1cc92596)
  const S_14 := Words(0xd932eb16, 0x87912990, 0xf71fc5a9, 0x4798a3f4, 0x745a48de, 0x1e578218, 0x816fd6e9, 0x436b23e8)
  const S_15 := Words(0xc0645fde, 0xd932eb16, 0x87912990, 0xf71fc5a9, 0x0b92f20c, 0x745a48de, 0x1e578218, 0x816fd6e9)
  const S_16 := Words(0xb0fa238e, 0xc0645fde, 0xd932eb16, 0x87912990, 0x07590dcd, 0x0b92f20c, 0x745a48de, 0x1e578218)
  const S_17 := Words(0x21da9a9b, 0xb0fa238e, 0xc0645fde, 0xd932eb16, 0x8034229c, 0x07590dcd, 0x0b92f20c, 0x745a48de)
  const S_18 := Words(0xc2fbd9d1, 0x21da9a9b, 0xb0fa238e, 0xc0645fde, 0x846ee454, 0x8034229c, 0x07590dcd, 0x0b92f20c)
  const S_19 := Words(0xfe777bbf, 0xc2fbd9d1, 0x21da9a9b, 0xb0fa238e, 0xcc899961, 0x846ee454, 0x8034229c, 0x07590dcd)
  const S_20 := Words(0xe1f20c33, 0xfe777bbf, 0xc2fbd9d1, 0x21da9a9b, 0xb0638179, 0xcc899961, 0x846ee454, 0x8034229c)
  const S_21 := Words(0x9dc68b63, 0xe1f20c33, 0xfe777bbf, 0xc2fbd9d1, 0x8ada8930, 0xb0638179, 0xcc899961, 0x846ee454)
  const S_22 := Words(0xc2606d6d, 0x9dc68b63, 0xe1f20c33, 0xfe777bbf, 0xe1257970, 0x8ada8930, 0xb0638179, 0xcc899961)
  const S_23 := Words(0xa7a3623f, 0xc2606d6d, 0x9dc68b63, 0xe1f20c33, 0x49f5114a, 0xe1257970, 0x8ada8930, 0xb0638179)
  const S_24 := Words(0xc5d53d8d, 0xa7a3623f, 0xc2606d6d, 0x9dc68b63, 0xaa47c347, 0x49f5114a, 0xe1257970, 0x8ada8930)
  const S_25 := Words(0x1c2c2838, 0xc5d53d8d, 0xa7a3623f, 0xc2606d6d, 0x2823ef91, 0xaa47c347, 0x49f5114a, 0xe1257970)
  const S_26 := Words(0xcde8037d, 0x1c2c2838, 0xc5d53d8d, 0xa7a3623f, 0x14383d8e, 0x2823ef91, 0xaa47c347, 0x49f5114a)
  const S_27 := Words(0xb62ec4bc, 0xcde8037d, 0x1c2c2838, 0xc5d53d8d, 0xc74c6516, 0x14383d8e, 0x2823ef91, 0xaa47c347)
  const S_28 := Words(0x77d37528, 0xb62ec4bc, 0xcde8037d, 0x1c2c2838, 0xedffbff8, 0xc74c6516, 0x14383d8e, 0x2823ef91)
  const S_29 := Words(0x363482c9, 0x77d37528, 0xb62ec4bc, 0xcde8037d, 0x6112a3b7, 0xedffbff8, 0xc74c6516, 0x14383d8e)
  const S_30 := Words(0xa0060b30, 0x363482c9, 0x77d37528, 0xb62ec4bc, 0xade79437, 0x6112a3b7, 0xedffbff8, 0xc74c6516)
  const S_31 := Words(0xea992a22, 0xa0060b30, 0x363482c9, 0x77d37528, 0x0109ab3a, 0xade79437, 0x6112a3b7, 0xedffbff8)
  const S_32 := Words(0x73b33bf5, 0xea992a22, 0xa0060b30, 0x363482c9, 0xba591112, 0x0109ab3a, 0xade79437, 0x6112a3b7)
  const S_33 := Words(0x98e12507, 0x73b33bf5, 0xea992a22, 0xa0060b30, 0x9cd9f5f6, 0xba591112, 0x0109ab3a, 0xade79437)
  const S_34 := Words(0xfe604df5, 0x98e12507, 0x73b33bf5, 0xea992a22, 0x59249dd3, 0x9cd9f5f6, 0xba591112, 0x0109ab3a)
  const S_35 := Words(0xa9a7738c, 0xfe604df5, 0x98e12507, 0x73b33bf5, 0x085f3833, 0x59249dd3, 0x9cd9f5f6, 0xba591112)
  const S_36 := Words(0x65a0cfe4, 0xa9a7738c, 0xfe604df5, 0x98e12507, 0xf4b002d6, 0x085f3833, 0x59249dd3, 0x9cd9f5f6)
  const S_37 := Words(0x41a65cb1, 0x65a0cfe4, 0xa9a7738c, 0xfe604df5, 0x0772a26b, 0xf4b002d6, 0x085f3833, 0x59249dd3)
  const S_38 := Words(0x34df1604, 0x41a65cb1, 0x65a0cfe4, 0xa9a7738c, 0xa507a53d, 0x0772a26b, 0xf4b002d6, 0x085f3833)
  const S_39 := Words(0x6dc57a8a, 0x34df1604, 0x41a65cb1, 0x65a0cfe4, 0xf0781bc8, 0xa507a53d, 0x0772a26b, 0xf4b002d6)
  const S_40 := Words(0x79ea687a, 0x6dc57a8a, 0x34df1604, 0x41a65cb1, 0x1efbc0a0, 0xf0781bc8, 0xa507a53d, 0x0772a26b)
  const S_41 := Words(0xd6670766, 0x79ea687a, 0x6dc57a8a, 0x34df1604, 0x26352d63, 0x1efbc0a0, 0xf0781bc8, 0xa507a53d)
  const S_42 := Words(0xdf46652f, 0xd6670766, 0x79ea687a, 0x6dc57a8a, 0x838b2711, 0x26352d63, 0x1efbc0a0, 0xf0781bc8)
  const S_43 := Words(0x17aa0dfe, 0xdf46652f, 0xd6670766, 0x79ea687a, 0xdecd4715, 0x838b2711, 0x26352d63, 0x1efbc0a0)
  const S_44 := Words(0x9d4baf93, 0x17aa0dfe, 0xdf46652f, 0xd6670766, 0xfda24c2e, 0xdecd4715, 0x838b2711, 0x26352d63)
  const S_45 := Words(0x26628815, 0x9d4baf93, 0x17aa0dfe, 0xdf46652f, 0xa80f11f0, 0xfda24c2e, 0xdecd4715, 0x838b2711)
  const S_46 := Words(0x72ab4b91, 0x26628815, 0x9d4baf93, 0x17aa0dfe, 0xb7755da1, 0xa80f11f0, 0xfda24c2e, 0xdecd4715)
  const S_47 := Words(0xa14c14b0, 0x72ab4b91, 0x26628815, 0x9d4baf93, 0xd57b94a9, 0xb7755da1, 0xa80f11f0, 0xfda24c2e)
  const S_48 := Words(0x4172328d, 0xa14c14b0, 0x72ab4b91, 0x26628815, 0xfecf0bc6, 0xd57b94a9, 0xb7755da1, 0xa80f11f0)
  const S_49 := Words(0x05757ceb, 0x4172328d, 0xa14c14b0, 0x72ab4b91, 0xbd714038, 0xfecf0bc6, 0xd57b94a9, 0xb7755da1)
  const S_50 := Words(0xf11bfaa8, 0x05757ceb, 0x4172328d, 0xa14c14b0, 0x6e5c390c, 0xbd714038, 0xfecf0bc6, 0xd57b94a9)
  const S_51 := Words(0x7a0508a1, 0xf11bfaa8, 0x05757ceb, 0x4172328d, 0x52f1ccf7, 0x6e5c390c, 0xbd714038, 0xfecf0bc6)
  const S_52 := Words(0x886e7a22, 0x7a0508a1, 0xf11bfaa8, 0x05757ceb, 0x49231c1e, 0x52f1ccf7, 0x6e5c390c, 0xbd714038)
  const S_53 := Words(0x101fd28f, 0x886e7a22, 0x7a0508a1, 0xf11bfaa8, 0x529e7d00, 0x49231c1e, 0x52f1ccf7, 0x6e5c390c)
  const S_54 := Words(0xf5702fdb, 0x101fd28f, 0x886e7a22, 0x7a0508a1, 0x9f4787c3, 0x529e7d00, 0x49231c1e, 0x52f1ccf7)
  const S_55 := Words(0x3ec45cdb, 0xf5702fdb, 0x101fd28f, 0x886e7a22, 0xe50e1b4f, 0x9f4787c3, 0x529e7d00, 0x49231c1e)
  const S_56 := Words(0x38cc9913, 0x3ec45cdb, 0xf5702fdb, 0x101fd28f, 0x54cb266b, 0xe50e1b4f, 0x9f4787c3, 0x529e7d00)
  const S_57 := Words(0xfcd1887b, 0x38cc9913, 0x3ec45cdb, 0xf5702fdb, 0x9b5e906c, 0x54cb266b, 0xe50e1b4f, 0x9f4787c3)
  const S_58 := Words(0xc062d46f, 0xfcd1887b, 0x38cc9913, 0x3ec45cdb, 0x7e44008e, 0x9b5e906c, 0x54cb266b, 0xe50e1b4f)
  const S_59 := Words(0xffb70472, 0xc062d46f, 0xfcd1887b, 0x38cc9913, 0x6d83bfc6, 0x7e44008e, 0x9b5e906c, 0x54cb266b)
  const S_60 := Words(0xb6ae8fff, 0xffb70472, 0xc062d46f, 0xfcd1887b, 0xb21bad3d, 0x6d83bfc6, 0x7e44008e, 0x9b5e906c)
  const S_61 := Words(0xb85e2ce9, 0xb6ae8fff, 0xffb70472, 0xc062d46f, 0x961f4894, 0xb21bad3d, 0x6d83bfc6, 0x7e44008e)
  const S_62 := Words(0x04d24d6c, 0xb85e2ce9, 0xb6ae8fff, 0xffb70472, 0x948d25b6, 0x961f4894, 0xb21bad3d, 0x6d83bfc6)
  const S_63 := Words(0xd39a2165, 0x04d24d6c, 0xb85e2ce9, 0xb6ae8fff, 0xfb121210, 0x948d25b6, 0x961f4894, 0xb21bad3d)
  const S_64 := Words(0x506e3058, 0xd39a2165, 0x04d24d6c, 0xb85e2ce9, 0x5ef50f24, 0xfb121210, 0x948d25b6, 0x961f4894)

  /** The recursion of `Rounds`, for any round function. */
  function Iterate<A, T>(round: (A, T, T) -> A, s: A, ks: seq<T>, ws: seq<T>, t: nat): A
    requires t <= |ks| && t <= |ws|
  {
    if t == 0 then s else round(Iterate(round, s, ks, ws, t - 1), ks[t - 1], ws[t - 1])
  }

  lemma {:induction false} RoundsIterate(s: Words, ks: seq<bv32>, ws: seq<bv32>, t: nat)
    requires t <= |ks| && t <= |ws|
    ensures Rounds(s, ks, ws, t) == Iterate(Round, s, ks, ws, t)
  {
    if t > 0 {
      RoundsIterate(s, ks, ws, t - 1);
    }
  }

  /** Four rounds from place `i` of a row. */
  predicate Four<A(==), T>(round: (A, T, T) -> A, k: seq<T>, w: seq<T>, i: nat, a: A, b: A, c: A, d: A, e: A)
    requires i + 4 <= |k| && i + 4 <= |w|
  {
    && round(a, k[i], w[i]) == b
    && round(b, k[i + 1], w[i + 1]) == c
    && round(c, k[i + 2], w[i + 2]) == d
    && round(d, k[i + 3], w[i + 3]) == e
  }

  lemma FourMore<A, T>(round: (A, T, T) -> A, s: A, ks: seq<T>, ws: seq<T>, r: nat, k: seq<T>, w: seq<T>, i: nat,
                       a: A, b: A, c: A, d: A, e: A)
    requires RowIs(ks, r, k) && RowIs(ws, r, w) && i <= 4
    requires Iterate(round, s, ks, ws, 8 * r + i) == a && Four(round, k, w, i, a, b, c, d, e)
    ensures Iterate(round, s, ks, ws, 8 * r + i + 4) == e
  {
    var t := 8 * r + i;
    RowAt(ks, r, k, i);
    RowAt(ks, r, k, i + 1);
    RowAt(ks, r, k, i + 2);
    RowAt(ks, r, k, i + 3);
    RowAt(ws, r, w, i);
    RowAt(ws, r, w, i + 1);
    RowAt(ws, r, w, i + 2);
    RowAt(ws, r, w, i + 3);
    assert Iterate(round, s, ks, ws, t + 1) == b;
    assert Iterate(round, s, ks, ws, t + 2) == c;
    assert Iterate(round, s, ks, ws, t + 3) == d;
  }

  lemma EightMore<A, T>(round: (A, T, T) -> A, s: A, ks: seq<T>, ws: seq<T>, r: nat, k: seq<T>, w: seq<T>,
                        a: A, b: A, c: A, d: A, e: A, f: A, g: A, h: A, i: A)
    requires RowIs(ks, r, k) && RowIs(ws, r, w) && Iterate(round, s, ks, ws, 8 * r) == a
    requires Four(round, k, w, 0, a, b, c, d, e) && Four(round, k, w, 4, e, f, g, h, i)
    ensures Iterate(round, s, ks, ws, 8 * r + 8) == i
  {
    FourMore(round, s, ks, ws, r, k, w, 0, a, b, c, d, e);
    FourMore(round, s, ks, ws, r, k, w, 4, e, f, g, h, i);
  }

  lemma Four0()
    ensures Four(Round, K_0, W_0, 0, InitialHash(), S_1, S_2, S_3, S_4)
  {
  }

  lemma Four1()
    ensures Four(Round, K_0, W_0, 4, S_4, S_5, S_6, S_7, S_8)
  {
  }

  lemma Four2()
    ensures Four(Round, K_1, W_1, 0, S_8, S_9, S_10, S_11, S_12)
  {
  }

  lemma Four3()
    ensures Four(Round, K_1, W_1, 4, S_12, S_13, S_14, S_15, S_16)
  {
  }

  lemma Four4()
    ensures Four(Round, K_2, W_2, 0, S_16, S_17, S_18, S_19, S_20)
  {
  }

  lemma Four5()
    ensures Four(Round, K_2, W_2, 4, S_20, S_21, S_22, S_23, S_24)
  {
  }

  lemma Four6()
    ensures Four(Round, K_3, W_3, 0, S_24, S_25, S_26, S_27, S_28)
  {
  }

  lemma Four7()
    ensures Four(Round, K_3, W_3, 4, S_28, S_29, S_30, S_31, S_32)
  {
  }

  lemma Four8()
    ensures Four(Round, K_4, W_4, 0, S_32, S_33, S_34, S_35, S_36)
  {
  }

  lemma Four9()
    ensures Four(Round, K_4, W_4, 4, S_36, S_37, S_38, S_39, S_40)
  {
  }

  lemma Four10()
    ensures Four(Round, K_5, W_5, 0, S_40, S_41, S_42, S_43, S_44)
  {
  }

  lemma Four11()
    ensures Four(Round, K_5, W_5, 4, S_44, S_45, S_46, S_47, S_48)
  {
  }

  lemma Four12()
    ensures Four(Round, K_6, W_6, 0, S_48, S_49, S_50, S_51, S_52)
  {
  }

  lemma Four13()
    ensures Four(Round, K_6, W_6, 4, S_52, S_53, S_54, S_55, S_56)
  {
  }

  lemma Four14()
    ensures Four(Round, K_7, W_7, 0, S_56, S_57, S_58, S_59, S_60)
  {
  }

  lemma Four15()
    ensures Four(Round, K_7, W_7, 4, S_60, S_61, S_62, S_63, S_64)
  {
  }

  lemma Stage0(ws: seq<bv32>)
    requires |ws| == 64 && RowIs(ws, 0, W_0) && RowIs(K, 0, K_0) && |K| == 64
    requires Iterate(Round, InitialHash(), K, ws, 0) == InitialHash()
    ensures Iterate(Round, InitialHash(), K, ws, 8) == S_8
  {
    Four0();
    Four1();
    EightMore(Round, InitialHash(), K, ws, 0, K_0, W_0, InitialHash(), S_1, S_2, S_3, S_4, S_5, S_6, S_7, S_8);
  }

  lemma Stage1(ws: seq<bv32>)
    requires |ws| == 64 && RowIs(ws, 1, W_1) && RowIs(K, 1, K_1) && |K| == 64
    requires Iterate(Round, InitialHash(), K, ws, 8) == S_8
    ensures Iterate(Round, InitialHash(), K, ws, 16) == S_16
  {
    Four2();
    Four3();
    EightMore(Round, InitialHash(), K, ws, 1, K_1, W_1, S_8, S_9, S_10, S_11, S_12, S_13, S_14, S_15, S_16);
  }

  lemma Stage2(ws: seq<bv32>)
    requires |ws| == 64 && RowIs(ws, 2, W_2) && RowIs(K, 2, K_2) && |K| == 64
    requires Iterate(Round, InitialHash(), K, ws, 16) == S_16
    ensures Iterate(Round, InitialHash(), K, ws, 24) == S_24
  {
    Four4();
    Four5();
    EightMore(Round, InitialHash(), K, ws, 2, K_2, W_2, S_16, S_17, S_18, S_19, S_20, S_21, S_22, S_23, S_24);
  }

  lemma Stage3(ws: seq<bv32>)
    requires |ws| == 64 && RowIs(ws, 3, W_3) && RowIs(K, 3, K_3) && |K| == 64
    requires Iterate(Round, InitialHash(), K, ws, 24) == S_24
    ensures Iterate(Round, InitialHash(), K, ws, 32) == S_32
  {
    Four6();
    Four7();
    EightMore(Round, InitialHash(), K, ws, 3, K_3, W_3, S_24, S_25, S_26, S_27, S_28, S_29, S_30, S_31, S_32);
  }

  lemma Stage4(ws: seq<bv32>)
    requires |ws| == 64 && RowIs(ws, 4, W_4) && RowIs(K, 4, K_4) && |K| == 64
    requires Iterate(Round, InitialHash(), K, ws, 32) == S_32
    ensures Iterate(Round, InitialHash(), K, ws, 40) == S_40
  {
    Four8();
    Four9();
    EightMore(Round, InitialHash(), K, ws, 4, K_4, W_4, S_32, S_33, S_34, S_35, S_36, S_37, S_38, S_39, S_40);
  }

  lemma Stage5(ws: seq<bv32>)
    requires |ws| == 64 && RowIs(ws, 5, W_5) && RowIs(K, 5, K_5) && |K| == 64
    requires Iterate(Round, InitialHash(), K, ws, 40) == S_40
    ensures Iterate(Round, InitialHash(), K, ws, 48) == S_48
  {
    Four10();
    Four11();
    EightMore(Round, InitialHash(), K, ws, 5, K_5, W_5, S_40, S_41, S_42, S_43, S_44, S_45, S_46, S_47, S_48);
  }

  lemma Stage6(ws: seq<bv32>)
    requires |ws| == 64 && RowIs(ws, 6, W_6) && RowIs(K, 6, K_6) && |K| == 64
    requires Iterate(Round, InitialHash(), K, ws, 48) == S_48
    ensures Iterate(Round, InitialHash(), K, ws, 56) == S_56
  {
    Four12();
    Four13();
    EightMore(Round, InitialHash(), K, ws, 6, K_6, W_6, S_48, S_49, S_50, S_51, S_52, S_53, S_54, S_55, S_56);
  }

  lemma Stage7(ws: seq<bv32>)
    requires |ws| == 64 && RowIs(ws, 7, W_7) && RowIs(K, 7, K_7) && |K| == 64
    requires Iterate(Round, InitialHash(), K, ws, 56) == S_56
    ensures Iterate(Round, InitialHash(), K, ws, 64) == S_64
  {
    Four14();
    Four15();
    EightMore(Round, InitialHash(), K, ws, 7, K_7, W_7, S_56, S_57, S_58, S_59, S_60, S_61, S_62, S_63, S_64);
  }

  lemma FourRows<T>(a: seq<T>, b: seq<T>, c: seq<T>, d: seq<T>, s: seq<T>)
    requires |a| == |b| == |c| == |d| == 8 && s == a + b + c + d
    ensures s[0..8] == a && s[8..16] == b && s[16..24] == c && s[24..32] == d
  {
  }

  lemma Halves<T>(a: seq<T>, b: seq<T>, s: seq<T>)
    requires |a| == |b| == 32 && s == a + b
    ensures s[0..8] == a[0..8] && s[8..16] == a[8..16] && s[16..24] == a[16..24] && s[24..32] == a[24..32]
    ensures s[32..40] == b[0..8] && s[40..48] == b[8..16] && s[48..56] == b[16..24] && s[56..64] == b[24..32]
  {
  }

  lemma FirstRowsOfK()
    ensures |K| == 64 && K[0..8] == K_0 && K[8..16] == K_1 && K[16..24] == K_2 && K[24..32] == K_3
  {
    FourRows(K_0, K_1, K_2, K_3, K_0 + K_1 + K_2 + K_3);
    Halves(K_0 + K_1 + K_2 + K_3, K_4 + K_5 + K_6 + K_7, K);
  }

  lemma LastRowsOfK()
    ensures |K| == 64 && K[32..40] == K_4 && K[40..48] == K_5 && K[48..56] == K_6 && K[56..64] == K_7
  {
    FourRows(K_4, K_5, K_6, K_7, K_4 + K_5 + K_6 + K_7);
    Halves(K_0 + K_1 + K_2 + K_3, K_4 + K_5 + K_6 + K_7, K);
  }

  lemma AllRounds(ws: seq<bv32>)
    requires |ws| == 64 && AllRows(ws)
    ensures |K| == 64 && Rounds(InitialHash(), K, ws, 64) == S_64
  {
    FirstRowsOfK();
    LastRowsOfK();
    Stage0(ws);
    Stage1(ws);
    Stage2(ws);
    Stage3(ws);
    Stage4(ws);
    Stage5(ws);
    Stage6(ws);
    Stage7(ws);
    RoundsIterate(InitialHash(), K, ws, 64);
  }

  // ----- The block and the digest -----

  const DIGEST := Words(0xba7816bf, 0x8f01cfea, 0x414140de, 0x5dae2223, 0xb00361a3, 0x96177a9c, 0xb410ff61, 0xf20015ad)

  lemma PaddingOfThree()
    ensures Padding(3) == [0x80] + Zeros(52) + [0, 0, 0, 0, 0, 0, 0, 24]
  {
    assert Octets(1, 0) == [0];
    assert Octets(2, 0) == [0, 0];
    assert Octets(3, 0) == [0, 0, 0];
    assert Octets(4, 0) == [0, 0, 0, 0];
    assert Octets(5, 0) == [0, 0, 0, 0, 0];
    assert Octets(6, 0) == [0, 0, 0, 0, 0, 0];
    assert Octets(7, 0) == [0, 0, 0, 0, 0, 0, 0];
    assert Octets(8, 24) == [0, 0, 0, 0, 0, 0, 0, 24];
    assert ZeroCount(3) == 52;
  }

  lemma BlockIs(block: seq<Byte>)
    requires block == Padded(BytesOf("abc"))
    ensures |block| == 64 && block[0] == 0x61 && block[1] == 0x62 && block[2] == 0x63 && block[3] == 0x80
    ensures block[63] == 24 && forall i | 4 <= i < 63 :: block[i] == 0
  {
    PaddingOfThree();
  }

  lemma WordsOfBlock(block: seq<Byte>)
    requires |block| == 64 && block[0] == 0x61 && block[1] == 0x62 && block[2] == 0x63 && block[3] == 0x80
    requires block[63] == 24 && forall i | 4 <= i < 63 :: block[i] == 0
    ensures BlockWords(block) == W_0 + W_1
  {
    FirstAndLastWord(block);
    forall t | 0 < t < 15 ensures Word(block, t) == 0 {
      ZeroWord(block, t);
    }
  }

  lemma FirstAndLastWord(block: seq<Byte>)
    requires |block| == 64 && block[0] == 0x61 && block[1] == 0x62 && block[2] == 0x63 && block[3] == 0x80
    requires block[60] == block[61] == block[62] == 0 && block[63] == 24
    ensures Word(block, 0) == 0x61626380 && Word(block, 15) == 24
  {
    assert Join(0x61, 0x62, 0x63, 0x80) == 0x61626380;
    assert Join(0, 0, 0, 24) == 24;
  }

  lemma ZeroWord(block: seq<Byte>, t: nat)
    requires |block| == 64 && t < 16
    requires block[4 * t] == block[4 * t + 1] == block[4 * t + 2] == block[4 * t + 3] == 0
    ensures Word(block, t) == 0
  {
    assert Join(0, 0, 0, 0) == 0;
  }

  lemma FeedForwardIs()
    ensures InitialHash().Plus(S_64) == DIGEST
  {
  }

  lemma CompressOfBlock(block: seq<Byte>)
    requires |block| == 64 && BlockWords(block) == W_0 + W_1
    ensures Compress(InitialHash(), block) == DIGEST
  {
    var ws := Schedule(BlockWords(block));
    ScheduleFollows(BlockWords(block));
    ScheduleRows(ws);
    AllRounds(ws);
    FeedForwardIs();
  }

  lemma OneBlock(compress: (Words, Block) -> Words, hash: Words, block: seq<Byte>)
    requires |block| == 64
    ensures Absorb(compress, hash, block) == compress(hash, block)
  {
    assert block[..64] == block && block[64..] == [];
  }

  lemma CompressionIs(hash: Words, block: Block)
    ensures Compression()(hash, block) == Compress(hash, block)
  {
  }

  /** The digest that `sha256_hex("abc")` is expected to spell out. */
  lemma DigestOfAbc()
    ensures Digest(BytesOf("abc")) == DIGEST
  {
    var block := Padded(BytesOf("abc"));
    BlockIs(block);
    WordsOfBlock(block);
    CompressOfBlock(block);
    CompressionIs(InitialHash(), block);
    OneBlock(Compression(), InitialHash(), block);
  }
}
