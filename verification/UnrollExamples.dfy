/** Graphs on which the unrolling does what one might not expect, with the runs. */
module UnrollExamples {
  import opened TokenGraphs
  import opened UnrollWords
  import opened UnrollState
  import opened UnrollRemoval
  import opened UnrollMachine
  import opened UnrollPromises
  import opened UnrollResult
  import opened UnrollSpec
  import opened UnrollBounded
  import opened UnrollRun
  import opened UnrollDefinitions
  import opened UnrollReplay

  // ---------- an unset pointer is cloned ----------

  /** START = X | ptr X, X = ?(ptr Y), Y = ?(ptr Y): the first alternative is X itself. */
  function Nil0(): Graph {
    map[0 := One([1, 2]), 1 := Optional(3), 2 := Pointer(Some(1)), 3 := Pointer(Some(4)), 4 := Optional(5),
        5 := Pointer(Some(4))]
  }

  /** Y has a clone 7, and 9 is the clone of that. */
  function Nil1(): Graph {
    Nil0()[6 := Pointer(Some(4))][7 := Optional(6)]
  }

  function Nil2(): Graph {
    Nil1()[8 := Pointer(Some(4))][9 := Optional(8)]
  }

  /** 9 takes the place of the pointer 3. */
  function Nil3(): Graph {
    Nil2()[3 := Pointer(Some(9))][1 := Optional(9)]
  }

  /** The pointer 8 is cut off, and X with it. */
  function Nil4(): Graph {
    Nil3()[8 := Pointer(None)][0 := One([2])]
  }

  /** X is cloned as it is now. */
  function Nil5(): Graph {
    Nil4()[10 := Pointer(None)][11 := Optional(10)][12 := Optional(11)]
  }

  function Nil6(): Graph {
    Nil5()[13 := Pointer(None)][14 := Optional(13)][15 := Optional(14)]
  }

  function Nil7(): Graph {
    Nil6()[2 := Pointer(Some(15))][0 := One([15])]
  }

  lemma {:induction false} NilTokens()
    ensures 0 in Nil0() && Nil0()[0] == One([1, 2]) && 1 in Nil0() && Nil0()[1] == Optional(3)
    ensures 3 in Nil0() && Nil0()[3] == Pointer(Some(4)) && 4 in Nil0() && Nil0()[4] == Optional(5)
    ensures 5 in Nil0() && Nil0()[5] == Pointer(Some(4))
    ensures 6 in Nil1() && Nil1()[6] == Pointer(Some(4)) && 7 in Nil1() && Nil1()[7] == Optional(6)
    ensures 1 in Nil2() && Nil2()[1] == Optional(3)
    ensures 9 in Nil3() && Nil3()[9] == Optional(8) && 8 in Nil3() && Nil3()[8] == Pointer(Some(4))
    ensures 4 in Nil3() && Nil3()[4] == Optional(5)
  {
  }

  /** Y was cloned for the pointer 3. */
  lemma {:induction false} NilClones()
    ensures Cloned(Nil0(), 6, 4, Nil1(), 8, 7) && Cloned(Nil1(), 8, 7, Nil2(), 10, 9)
  {
    NilTokens();
    OptionalIs(5, 6);
    OptionalIs(6, 8);
    PointerIs(Some(4));
    assert Nil1() == Nil0()[6 := Nil0()[5]][7 := Optional(6)] && Nil2() == Nil1()[8 := Nil1()[6]][9 := Optional(8)];
    hide *;
    ClonedBare(Nil0(), 6, 5);
    ClonedAround(Nil0(), 6, 4, 5, Nil0()[6 := Nil0()[5]], 7, 6);
    ClonedBare(Nil1(), 8, 6);
    ClonedAround(Nil1(), 8, 7, 6, Nil1()[8 := Nil1()[6]], 9, 8);
  }

  /** The state after the cut. */
  ghost function NilHalf(): Machine {
    Machine(Nil4(), 10, 0, map[][4 := 4][9 := 4], map[][4 := 7], [Item(2, Item(0, NoItem, map[]), map[])] + [],
            {} + {9} + {8}, false)
  }

  lemma {:induction false} NilHalfIs()
    ensures NilHalf()
        == Machine(Nil4(), 10, 0, map[][4 := 4][9 := 4], map[][4 := 7], [Item(2, Item(0, NoItem, map[]), map[])] + [],
                                 {} + {9} + {8}, false)
  {
  }

  lemma {:induction false} NilFirstHalf() returns (m: Machine)
    ensures Goes(1, Initial(Nil0(), 0, 6), m, 5) && m == NilHalf()
  {
    hide *;
    var i0 := Item(0, NoItem, map[]);
    var m0 := Initial(Nil0(), 0, 6);
    Start(1, Nil0(), 0, 6);
    NilTokens();
    NilClones();
    NilStart();
    NilCut();
    NilHalfIs();
    m := Down2(1, m0, m0, 0, i0, [], 1, 2);
    var i1, i2 := Item(1, i0, map[]), Item(2, i0, map[]);
    m := Down1(1, m0, m, 1, i1, [i2] + [], 3);
    var i3 := Item(3, i1, map[]);
    m := ExpandNew(1, m0, m, 2, i3, [i2] + [], 4, Nil1(), 8, 7, Nil2(), 10, 9, Optional(9));
    var i9 := Item(9, i1, map[][4 := 1]);
    m := Down1(1, m0, m, 3, i9, [i2] + [], 8);
    var i8 := Item(8, i9, map[][4 := 1]);
    m := CutOff(1, m0, m, 4, i8, [i2] + [], 4, 4, Nil4(), false);
  }

  lemma {:induction false} NilStart()
    ensures Kids(One([1, 2])) == [1, 2] && Kids(Optional(3)) == [3] && Kids(Optional(8)) == [8]
    ensures InPlaceOf(Nil2(), Item(3, Item(1, Item(0, NoItem, map[]), map[]), map[]), 9, Optional(9))
    ensures Nil2()[3 := Pointer(Some(9))][1 := Optional(9)] == Nil3()
  {
  }

  lemma {:induction false} NilCut()
    ensures Climb(Nil3()[8 := Pointer(None)],
                  Item(9, Item(1, Item(0, NoItem, map[]), map[]), map[][4 := 1]), 8) == (Nil4(), false)
  {
    var g := Nil3()[8 := Pointer(None)];
    var i0 := Item(0, NoItem, map[]);
    var i1 := Item(1, i0, map[]);
    assert g[9] == Optional(8) && g[1] == Optional(9) && g[0] == One([1, 2]) && Nil4() == g[0 := One([2])];
    hide *;
    GoesAlong(g, Item(9, i1, map[][4 := 1]), 8);
    GoesAlong(g, i1, 9);
    OneStays(g, i0, 1, 2);
  }

  /** X, with the unset pointer below it, is cloned for the pointer 2. */
  lemma {:induction false} NilClonesAgain()
    ensures Cloned(Nil4(), 10, 1, Nil5(), 13, 12) && Cloned(Nil5(), 13, 12, Nil6(), 16, 15)
  {
    OptionalIs(8, 10);
    OptionalIs(9, 11);
    OptionalIs(10, 13);
    OptionalIs(11, 14);
    PointerIs(None);
    assert Nil4()[8] == Pointer(None) && Nil4()[9] == Optional(8) && Nil4()[1] == Optional(9);
    assert Nil5()[10] == Pointer(None) && Nil5()[11] == Optional(10) && Nil5()[12] == Optional(11);
    assert 8 in Nil4() && 9 in Nil4() && 1 in Nil4() && 10 in Nil5() && 11 in Nil5() && 12 in Nil5();
    assert Nil5() == Nil4()[10 := Pointer(None)][11 := Optional(10)][12 := Optional(11)];
    assert Nil6() == Nil5()[13 := Pointer(None)][14 := Optional(13)][15 := Optional(14)];
    hide *;
    ClonedBare(Nil4(), 10, 8);
    ClonedAround(Nil4(), 10, 9, 8, Nil4()[10 := Pointer(None)], 11, 10);
    ClonedAround(Nil4(), 10, 1, 9, Nil4()[10 := Pointer(None)][11 := Optional(10)], 12, 11);
    ClonedBare(Nil5(), 13, 10);
    ClonedAround(Nil5(), 13, 11, 10, Nil5()[13 := Pointer(None)], 14, 13);
    ClonedAround(Nil5(), 13, 12, 11, Nil5()[13 := Pointer(None)][14 := Optional(13)], 15, 14);
  }

  lemma {:induction false} NilEnd()
    ensures Kids(Optional(14)) == [14] && Kids(Optional(13)) == [13]
    ensures 2 in Nil4() && Nil4()[2] == Pointer(Some(1)) && 1 in Nil4() && Nil4()[1] == Optional(9)
    ensures InPlaceOf(Nil6(), Item(2, Item(0, NoItem, map[]), map[]), 15, One([15]))
    ensures Nil6()[2 := Pointer(Some(15))][0 := One([15])] == Nil7()
    ensures 15 in Nil7() && Nil7()[15] == Optional(14) && 14 in Nil7() && Nil7()[14] == Optional(13)
    ensures 13 in Nil7() && Nil7()[13] == Pointer(None)
  {
    OneIs(2, 15);
    PlacedAlone(Nil6(), Item(2, Item(0, NoItem, map[]), map[]), 15, One([15]));
  }

  lemma {:induction false} NilPointersSet()
    ensures PointersSet(Nil0())
  {
  }

  lemma {:induction false} NilPrints()
    ensures forall x :: x in Nil0() ==> Prints(Nil0(), x, "")
  {
    var h, d := Nil0(), Derivation([]);
    assert Yields(h, 1, d, "") && Yields(h, 4, d, "");
    assert Yields(h, 2, Derivation([d]), "") && Yields(h, 3, Derivation([d]), "") && Yields(h, 5, Derivation([d]), "");
    assert [1, 2][0] == 1 && Yields(h, 0, Derivation([d]), "");
  }

  /** All pointers of Nil0 are set, all tokens print a word, and still the unrolling meets a pointer that is not set. */
  lemma {:induction false} SetPointersAreNotEnough() returns (end: Machine)
    ensures Ends(1, Nil0(), 0, 6, end, NilPointer)
    ensures PointersSet(Nil0()) && forall x :: x in Nil0() ==> Prints(Nil0(), x, "")
  {
    hide *;
    var i0 := Item(0, NoItem, map[]);
    var i2 := Item(2, i0, map[]);
    var m0 := Initial(Nil0(), 0, 6);
    end := NilFirstHalf();
    NilHalfIs();
    NilClonesAgain();
    NilEnd();
    NilPointersSet();
    NilPrints();
    end := ExpandNew(1, m0, end, 5, i2, [], 1, Nil5(), 13, 12, Nil6(), 16, 15, One([15]));
    var i15 := Item(15, i0, map[][1 := 1]);
    end := Down1(1, m0, end, 6, i15, [], 14);
    var i14 := Item(14, i15, map[][1 := 1]);
    end := Down1(1, m0, end, 7, i14, [], 13);
    FinishNil(1, Nil0(), 0, 6, end, 8, Item(13, i14, map[][1 := 1]), []);
  }

  // ---------- the same grammar, with the alternatives exchanged ----------

  /** START = ptr X | X: the pointer comes before X. */
  function Ord0(): Graph {
    Nil0()[0 := One([2, 1])]
  }

  function Ord1(): Graph {
    Ord0()[6 := Pointer(Some(4))][7 := Optional(6)]
  }

  function Ord2(): Graph {
    Ord1()[8 := Pointer(Some(4))][9 := Optional(8)]
  }

  /** X is cloned while nothing below it is cut off. */
  function Ord3(): Graph {
    Ord2()[2 := Pointer(Some(9))][0 := One([9, 1])]
  }

  function Ord4(): Graph {
    Ord3()[10 := Pointer(Some(4))][11 := Optional(10)]
  }

  function Ord5(): Graph {
    Ord4()[12 := Pointer(Some(4))][13 := Optional(12)]
  }

  function Ord6(): Graph {
    Ord5()[8 := Pointer(Some(13))][9 := Optional(13)]
  }

  /** The clone is cut off. */
  function Ord7(): Graph {
    Ord6()[12 := Pointer(None)][0 := One([1])]
  }

  function Ord8(): Graph {
    Ord7()[14 := Pointer(Some(4))][15 := Optional(14)]
  }

  function Ord9(): Graph {
    Ord8()[3 := Pointer(Some(15))][1 := Optional(15)]
  }

  /** X is cut off. */
  function Ord10(): Graph {
    Ord9()[14 := Pointer(None)][0 := One([])]
  }

  /** An Optional around a pointer to 4 is cloned. */
  lemma {:induction false} OptionalCloned(h: Graph, n: Ref, r: Ref, k: Ref, g: Graph)
    requires r in h && h[r] == Optional(k) && k in h && h[k] == Pointer(Some(4))
    requires g == h[n := Pointer(Some(4))][n + 1 := Optional(n)]
    ensures Cloned(h, n, r, g, n + 2, n + 1)
  {
    OptionalIs(k, n);
    PointerIs(Some(4));
    hide *;
    ClonedBare(h, n, k);
    ClonedAround(h, n, r, k, h[n := Pointer(Some(4))], n + 1, n);
  }

  lemma {:induction false} OrdClones()
    ensures Cloned(Ord0(), 6, 1, Ord1(), 8, 7) && Cloned(Ord1(), 8, 7, Ord2(), 10, 9)
    ensures Cloned(Ord3(), 10, 4, Ord4(), 12, 11) && Cloned(Ord4(), 12, 11, Ord5(), 14, 13)
    ensures Cloned(Ord7(), 14, 11, Ord8(), 16, 15)
  {
    assert 1 in Ord0() && Ord0()[1] == Optional(3) && 3 in Ord0() && Ord0()[3] == Pointer(Some(4));
    assert 7 in Ord1() && Ord1()[7] == Optional(6) && 6 in Ord1() && Ord1()[6] == Pointer(Some(4));
    assert 4 in Ord3() && Ord3()[4] == Optional(5) && 5 in Ord3() && Ord3()[5] == Pointer(Some(4));
    assert 11 in Ord4() && Ord4()[11] == Optional(10) && 10 in Ord4() && Ord4()[10] == Pointer(Some(4));
    assert 11 in Ord7() && Ord7()[11] == Optional(10) && 10 in Ord7() && Ord7()[10] == Pointer(Some(4));
    assert Ord1() == Ord0()[6 := Pointer(Some(4))][7 := Optional(6)];
    assert Ord2() == Ord1()[8 := Pointer(Some(4))][9 := Optional(8)];
    assert Ord4() == Ord3()[10 := Pointer(Some(4))][11 := Optional(10)];
    assert Ord5() == Ord4()[12 := Pointer(Some(4))][13 := Optional(12)];
    assert Ord8() == Ord7()[14 := Pointer(Some(4))][15 := Optional(14)];
    hide *;
    OptionalCloned(Ord0(), 6, 1, 3, Ord1());
    OptionalCloned(Ord1(), 8, 7, 6, Ord2());
    OptionalCloned(Ord3(), 10, 4, 5, Ord4());
    OptionalCloned(Ord4(), 12, 11, 10, Ord5());
    OptionalCloned(Ord7(), 14, 11, 10, Ord8());
  }

  lemma {:induction false} OrdTokens()
    ensures Kids(One([2, 1])) == [2, 1] && Kids(Optional(8)) == [8] && Kids(Optional(12)) == [12]
    ensures 0 in Ord0() && Ord0()[0] == One([2, 1])
    ensures 2 in Ord0() && Ord0()[2] == Pointer(Some(1)) && 1 in Ord0() && Ord0()[1] == Optional(3)
    ensures 9 in Ord3() && Ord3()[9] == Optional(8) && 8 in Ord3() && Ord3()[8] == Pointer(Some(4))
    ensures 4 in Ord3() && Ord3()[4] == Optional(5) && 4 in Ord6() && Ord6()[4] == Optional(5)
    ensures 13 in Ord6() && Ord6()[13] == Optional(12) && 12 in Ord6() && Ord6()[12] == Pointer(Some(4))
  {
  }

  lemma {:induction false} OrdLaterTokens()
    ensures Kids(Optional(3)) == [3] && Kids(Optional(14)) == [14]
    ensures 1 in Ord7() && Ord7()[1] == Optional(3) && 3 in Ord7() && Ord7()[3] == Pointer(Some(4))
    ensures 4 in Ord7() && Ord7()[4] == Optional(5) && 4 in Ord9() && Ord9()[4] == Optional(5)
    ensures 15 in Ord9() && Ord9()[15] == Optional(14) && 14 in Ord9() && Ord9()[14] == Pointer(Some(4))
  {
  }

  lemma {:induction false} OrdLinks(i9: Item, a: map<Ref, nat>)
    requires i9.Item? && i9.tok == 9
    ensures InPlaceOf(Ord2(), Item(2, Item(0, NoItem, map[]), map[]), 9, One([9, 1]))
    ensures InPlaceOf(Ord5(), Item(8, i9, a), 13, Optional(13))
    ensures InPlaceOf(Ord8(), Item(3, Item(1, Item(0, NoItem, map[]), map[]), map[]), 15, Optional(15))
    ensures Ord2()[2 := Pointer(Some(9))][0 := One([9, 1])] == Ord3()
    ensures Ord5()[8 := Pointer(Some(13))][9 := Optional(13)] == Ord6()
    ensures Ord8()[3 := Pointer(Some(15))][1 := Optional(15)] == Ord9()
  {
    assert Replaced([2, 1], 2, 9) == [9, 1];
  }

  lemma {:induction false} OrdCuts(a: map<Ref, nat>, b: map<Ref, nat>)
    ensures Climb(Ord6()[12 := Pointer(None)], Item(13, Item(9, Item(0, NoItem, map[]), a), b), 12) == (Ord7(), false)
    ensures Climb(Ord9()[14 := Pointer(None)], Item(15, Item(1, Item(0, NoItem, map[]), map[]), a), 14)
            == (Ord10(), true)
  {
    var g, k, i0 := Ord6()[12 := Pointer(None)], Ord9()[14 := Pointer(None)], Item(0, NoItem, map[]);
    assert g[13] == Optional(12) && g[9] == Optional(13) && g[0] == One([9, 1]) && Ord7() == g[0 := One([1])];
    assert k[15] == Optional(14) && k[1] == Optional(15) && k[0] == One([1]) && Ord10() == k[0 := One([])];
    hide *;
    GoesAlong(g, Item(13, Item(9, i0, a), b), 12);
    GoesAlong(g, Item(9, i0, a), 13);
    OneStays(g, i0, 9, 1);
    GoesAlong(k, Item(15, Item(1, i0, map[]), a), 14);
    GoesAlong(k, Item(1, i0, map[]), 15);
    RootOneGoes(k, i0, 1);
  }

  lemma {:induction false} OrdFirstHalf() returns (m: Machine)
    ensures Goes(1, Initial(Ord0(), 0, 6), m, 6)
    ensures m == Machine(Ord7(), 14, 0, map[][1 := 1][9 := 1][4 := 4][13 := 4], map[][1 := 7][4 := 11],
                         [Item(1, Item(0, NoItem, map[]), map[])] + [], {} + {13} + {12}, false)
  {
    hide *;
    var i0 := Item(0, NoItem, map[]);
    var i1, i2 := Item(1, i0, map[]), Item(2, i0, map[]);
    var m0 := Initial(Ord0(), 0, 6);
    var a: map<Ref, nat> := map[][1 := 1];
    var b := a[4 := 1];
    var i9 := Item(9, i0, a);
    Start(1, Ord0(), 0, 6);
    OrdTokens();
    OrdClones();
    OrdLinks(i9, a);
    OrdCuts(a, b);
    m := Down2(1, m0, m0, 0, i0, [], 2, 1);
    m := ExpandNew(1, m0, m, 1, i2, [i1] + [], 1, Ord1(), 8, 7, Ord2(), 10, 9, One([9, 1]));
    m := Down1(1, m0, m, 2, i9, [i1] + [], 8);
    m := ExpandNew(1, m0, m, 3, Item(8, i9, a), [i1] + [], 4, Ord4(), 12, 11, Ord5(), 14, 13, Optional(13));
    var i13 := Item(13, i9, b);
    m := Down1(1, m0, m, 4, i13, [i1] + [], 12);
    m := CutOff(1, m0, m, 5, Item(12, i13, b), [i1] + [], 4, 4, Ord7(), false);
  }


  /** The order of the alternatives decides: here the unrolling ends, there it meets an unset pointer. */
  lemma {:induction false} OrderDecides() returns (end: Machine)
    ensures Ends(1, Ord0(), 0, 6, end, Unrolled) && end.climbed
  {
    hide *;
    end := OrdFirstHalf();
    end := OrdRest(end, map[][1 := 1][9 := 1][4 := 4][13 := 4], map[][1 := 7][4 := 11], {} + {13} + {12});
  }

  lemma {:induction false} OrdRest(m: Machine, o: map<Ref, Ref>, clones: map<Ref, Ref>, seen: set<Ref>)
    returns (end: Machine)
    requires Goes(1, Initial(Ord0(), 0, 6), m, 6) && 4 in o && o[4] == 4 && 4 in clones && clones[4] == 11
    requires m == Machine(Ord7(), 14, 0, o, clones, [Item(1, Item(0, NoItem, map[]), map[])] + [], seen, false)
    requires 1 !in seen && 3 !in seen
    ensures Ends(1, Ord0(), 0, 6, end, Unrolled) && end.climbed
  {
    hide *;
    var i0 := Item(0, NoItem, map[]);
    var i1 := Item(1, i0, map[]);
    var m0 := Initial(Ord0(), 0, 6);
    var c: map<Ref, nat> := map[][4 := 1];
    OrdLaterTokens();
    OrdClones();
    OrdLinks(Item(9, i0, map[]), map[]);
    OrdCuts(c, c);
    end := Down1(1, m0, m, 6, i1, [], 3);
    end := ExpandAgain(1, m0, end, 7, Item(3, i1, map[]), [], 4, 4, Ord8(), 16, 15, Optional(15));
    var i15 := Item(15, i1, c);
    end := Down1(1, m0, end, 8, i15, [], 14);
    end := CutOff(1, m0, end, 9, Item(14, i15, c), [], 4, 4, Ord10(), true);
    Finish(1, Ord0(), 0, 6, end, 10);
  }

  // ---------- a token that is part of a concatenation twice ----------

  /** The same pointer twice in a concatenation: only this example shares a token. */
  function Twice0(): Graph {
    map[0 := Concat([1, 1]), 1 := Pointer(Some(2)), 2 := Optional(3), 3 := Pointer(Some(2))]
  }

  function Twice1(): Graph {
    Twice0()[4 := Pointer(Some(2))][5 := Optional(4)]
  }

  function Twice2(): Graph {
    Twice1()[6 := Pointer(Some(2))][7 := Optional(6)]
  }

  /** The clone 7 takes the place of the pointer at both places. */
  function Twice3(): Graph {
    Twice2()[1 := Pointer(Some(7))][0 := Concat([7, 7])]
  }

  /** It is cut off at one of them: the removal goes on behind what follows. */
  function Twice4(): Graph {
    Twice3()[6 := Pointer(None)][0 := Concat([7])]
  }

  /** The pointer is visited again, and expanded again, to a token that has no parent. */
  function Twice5(): Graph {
    Twice4()[8 := Pointer(Some(2))][9 := Optional(8)]
  }

  function Twice6(): Graph {
    Twice5()[1 := Pointer(Some(9))][0 := Concat([7])]
  }

  function Twice7(): Graph {
    Twice6()[8 := Pointer(None)]
  }

  lemma {:induction false} TwiceClones()
    ensures Cloned(Twice0(), 4, 2, Twice1(), 6, 5) && Cloned(Twice1(), 6, 5, Twice2(), 8, 7)
    ensures Cloned(Twice4(), 8, 5, Twice5(), 10, 9)
  {
    OptionalIs(3, 4);
    OptionalIs(4, 6);
    OptionalIs(4, 8);
    PointerIs(Some(2));
    assert 2 in Twice0() && Twice0()[2] == Optional(3) && 3 in Twice0() && Twice0()[3] == Pointer(Some(2));
    assert 5 in Twice1() && Twice1()[5] == Optional(4) && 4 in Twice1() && Twice1()[4] == Pointer(Some(2));
    assert 5 in Twice4() && Twice4()[5] == Optional(4) && 4 in Twice4() && Twice4()[4] == Pointer(Some(2));
    assert Twice1() == Twice0()[4 := Pointer(Some(2))][5 := Optional(4)];
    assert Twice2() == Twice1()[6 := Pointer(Some(2))][7 := Optional(6)];
    assert Twice5() == Twice4()[8 := Pointer(Some(2))][9 := Optional(8)];
    hide *;
    ClonedBare(Twice0(), 4, 3);
    ClonedAround(Twice0(), 4, 2, 3, Twice0()[4 := Pointer(Some(2))], 5, 4);
    ClonedBare(Twice1(), 6, 4);
    ClonedAround(Twice1(), 6, 5, 4, Twice1()[6 := Pointer(Some(2))], 7, 6);
    ClonedBare(Twice4(), 8, 4);
    ClonedAround(Twice4(), 8, 5, 4, Twice4()[8 := Pointer(Some(2))], 9, 8);
  }

  lemma {:induction false} TwiceTokens()
    ensures Kids(Concat([1, 1])) == [1, 1] && Kids(Optional(6)) == [6] && Kids(Optional(8)) == [8]
    ensures 0 in Twice0() && Twice0()[0] == Concat([1, 1]) && 1 in Twice0() && Twice0()[1] == Pointer(Some(2))
    ensures 2 in Twice0() && Twice0()[2] == Optional(3)
    ensures 7 in Twice3() && Twice3()[7] == Optional(6) && 6 in Twice3() && Twice3()[6] == Pointer(Some(2))
    ensures 2 in Twice3() && Twice3()[2] == Optional(3)
    ensures 1 in Twice4() && Twice4()[1] == Pointer(Some(7)) && 7 in Twice4() && Twice4()[7] == Optional(6)
    ensures 9 in Twice6() && Twice6()[9] == Optional(8) && 8 in Twice6() && Twice6()[8] == Pointer(Some(2))
    ensures 2 in Twice6() && Twice6()[2] == Optional(3)
  {
  }

  lemma {:induction false} TwiceLinks()
    ensures InPlaceOf(Twice2(), Item(1, Item(0, NoItem, map[]), map[]), 7, Concat([7, 7]))
    ensures InPlaceOf(Twice5(), Item(1, Item(0, NoItem, map[]), map[]), 9, Concat([7]))
    ensures Twice2()[1 := Pointer(Some(7))][0 := Concat([7, 7])] == Twice3()
    ensures Twice5()[1 := Pointer(Some(9))][0 := Concat([7])] == Twice6()
  {
    assert Replaced([1, 1], 1, 7) == [7, 7] && Replaced([7], 1, 9) == [7];
  }

  lemma {:induction false} TwiceCuts()
    ensures Climb(Twice3()[6 := Pointer(None)], Item(7, Item(0, NoItem, map[]), map[][2 := 1]), 6) == (Twice4(), false)
    ensures Climb(Twice6()[8 := Pointer(None)], Item(9, Item(0, NoItem, map[]), map[][2 := 1]), 8) == (Twice7(), false)
  {
    var a, b, i0 := Twice3()[6 := Pointer(None)], Twice6()[8 := Pointer(None)], Item(0, NoItem, map[]);
    assert Dropped([7, 7], 7) == [7] by { assert [7, 7][2..] == []; }
    assert a[7] == Optional(6) && a[0] == Concat([7, 7]) && OptionalType(a[7]) && Twice4() == a[0 := Concat([7])];
    assert b[9] == Optional(8) && b[0] == Concat([7]) && Twice7() == b;
    hide *;
    GoesAlong(a, Item(7, i0, map[][2 := 1]), 6);
    ConcatStays(a, i0, 7);
    GoesAlong(b, Item(9, i0, map[][2 := 1]), 8);
    NothingToDrop(b, i0, 9);
  }

  lemma {:induction false} TwiceRuns() returns (m: Machine)
    ensures Ends(1, Twice0(), 0, 4, m, Unrolled) && m.h == Twice7() && m.root == 0 && !m.climbed
  {
    hide *;
    var i0 := Item(0, NoItem, map[]);
    var i1 := Item(1, i0, map[]);
    var m0 := Initial(Twice0(), 0, 4);
    Start(1, Twice0(), 0, 4);
    TwiceTokens();
    TwiceClones();
    TwiceLinks();
    TwiceCuts();
    m := Down2(1, m0, m0, 0, i0, [], 1, 1);
    m := ExpandNew(1, m0, m, 1, i1, [i1] + [], 2, Twice1(), 6, 5, Twice2(), 8, 7, Concat([7, 7]));
    var i7 := Item(7, i0, map[][2 := 1]);
    m := Down1(1, m0, m, 2, i7, [i1] + [], 6);
    m := CutOff(1, m0, m, 3, Item(6, i7, map[][2 := 1]), [i1] + [], 2, 2, Twice4(), false);
    m := ExpandAgain(1, m0, m, 4, i1, [], 7, 2, Twice5(), 10, 9, Concat([7]));
    var i9 := Item(9, i0, map[][2 := 1]);
    m := Down1(1, m0, m, 5, i9, [], 8);
    m := CutOff(1, m0, m, 6, Item(8, i9, map[][2 := 1]), [], 2, 2, Twice7(), false);
    Finish(1, Twice0(), 0, 4, m, 7);
  }

  /** With a shared token, a pointer can be left. */
  lemma {:induction false} SharingLeavesAPointer() returns (end: Machine)
    ensures Ends(1, Twice0(), 0, 4, end, Unrolled) && !end.climbed
    ensures Path(end.h, end.root, [0, 7, 6]) && 6 in end.h && end.h[6].Pointer?
    ensures Closed(Twice0()) && Acyclic(Twice0(), map[0 := 2, 1 := 0, 2 := 1, 3 := 0]) && !UniqueParent(Twice0())
  {
    hide *;
    end := TwiceRuns();
    TwicePath();
    TwiceShares();
  }

  lemma {:induction false} TwicePath()
    ensures Path(Twice7(), 0, [0, 7, 6]) && 6 in Twice7() && Twice7()[6].Pointer?
  {
    assert Twice7()[0] == Concat([7]) && Twice7()[7] == Optional(6);
  }

  lemma {:induction false} TwiceShares()
    ensures Closed(Twice0()) && Acyclic(Twice0(), map[0 := 2, 1 := 0, 2 := 1, 3 := 0]) && !UniqueParent(Twice0())
  {
    var ts := Kids(Twice0()[0]);
    assert ts[0] == ts[1] && !NoRepeats(ts);
    hide NoRepeats;
  }

  // ---------- an original that is cloned together with expansions ----------

  /** START = Concat(?(A)), A = Concat(?(START)). */
  function Mutual0(): Graph {
    map[0 := Concat([1]), 1 := Optional(2), 2 := Pointer(Some(3)), 3 := Concat([4]), 4 := Optional(5),
        5 := Pointer(Some(0))]
  }

  function Mutual1(): Graph {
    Mutual0()[6 := Pointer(Some(0))][7 := Optional(6)][8 := Concat([7])]
  }

  function Mutual2(): Graph {
    Mutual1()[9 := Pointer(Some(0))][10 := Optional(9)][11 := Concat([10])]
  }

  /** A is expanded below START. */
  function Mutual3(): Graph {
    Mutual2()[2 := Pointer(Some(11))][1 := Optional(11)]
  }

  /** START is cloned with the expansion of A. */
  function Mutual4(): Graph {
    Mutual3()[12 := Pointer(Some(0))][13 := Optional(12)][14 := Concat([13])][15 := Optional(14)][16 := Concat([15])]
  }

  function Mutual5(): Graph {
    Mutual4()[17 := Pointer(Some(0))][18 := Optional(17)][19 := Concat([18])][20 := Optional(19)][21 := Concat([20])]
  }

  function Mutual6(): Graph {
    Mutual5()[9 := Pointer(Some(21))][10 := Optional(21)]
  }

  function Mutual7(): Graph {
    Mutual6()[17 := Pointer(None)][19 := Concat([])]
  }

  lemma {:induction false} MutualClones()
    ensures Cloned(Mutual0(), 6, 3, Mutual1(), 9, 8) && Cloned(Mutual1(), 9, 8, Mutual2(), 12, 11)
  {
    ConcatIs(4, 7);
    ConcatIs(7, 10);
    OptionalIs(5, 6);
    OptionalIs(6, 9);
    PointerIs(Some(0));
    var a, b := Mutual0(), Mutual1();
    assert 3 in a && a[3] == Concat([4]) && 4 in a && a[4] == Optional(5) && 5 in a && a[5] == Pointer(Some(0));
    assert 8 in b && b[8] == Concat([7]) && 7 in b && b[7] == Optional(6) && 6 in b && b[6] == Pointer(Some(0));
    assert b == a[6 := Pointer(Some(0))][7 := Optional(6)][8 := Concat([7])];
    assert Mutual2() == b[9 := Pointer(Some(0))][10 := Optional(9)][11 := Concat([10])];
    hide *;
    ClonedBare(a, 6, 5);
    ClonedAround(a, 6, 4, 5, a[6 := Pointer(Some(0))], 7, 6);
    ClonedAround(a, 6, 3, 4, a[6 := Pointer(Some(0))][7 := Optional(6)], 8, 7);
    ClonedBare(b, 9, 6);
    ClonedAround(b, 9, 7, 6, b[9 := Pointer(Some(0))], 10, 9);
    ClonedAround(b, 9, 8, 7, b[9 := Pointer(Some(0))][10 := Optional(9)], 11, 10);
  }

  lemma {:induction false} MutualCloned()
    ensures Cloned(Mutual3(), 12, 0, Mutual4(), 17, 16)
  {
    OptionalIs(9, 12);
    ConcatIs(10, 13);
    OptionalIs(11, 14);
    ConcatIs(1, 15);
    PointerIs(Some(0));
    var a := Mutual3();
    assert 9 in a && a[9] == Pointer(Some(0)) && 10 in a && a[10] == Optional(9) && 11 in a && a[11] == Concat([10]);
    assert 1 in a && a[1] == Optional(11) && 0 in a && a[0] == Concat([1]);
    assert Mutual4()
        == a[12 := Pointer(Some(0))][13 := Optional(12)][14 := Concat([13])][15 := Optional(14)][16 := Concat([15])];
    hide *;
    var b := a[12 := Pointer(Some(0))];
    ClonedBare(a, 12, 9);
    ClonedAround(a, 12, 10, 9, b, 13, 12);
    ClonedAround(a, 12, 11, 10, b[13 := Optional(12)], 14, 13);
    ClonedAround(a, 12, 1, 11, b[13 := Optional(12)][14 := Concat([13])], 15, 14);
    ClonedAround(a, 12, 0, 1, b[13 := Optional(12)][14 := Concat([13])][15 := Optional(14)], 16, 15);
  }

  lemma {:induction false} MutualClonedAgain()
    ensures Cloned(Mutual4(), 17, 16, Mutual5(), 22, 21)
  {
    OptionalIs(12, 17);
    ConcatIs(13, 18);
    OptionalIs(14, 19);
    ConcatIs(15, 20);
    PointerIs(Some(0));
    var a := Mutual4();
    assert 12 in a && a[12] == Pointer(Some(0)) && 13 in a && a[13] == Optional(12) && 14 in a && a[14] == Concat([13]);
    assert 15 in a && a[15] == Optional(14) && 16 in a && a[16] == Concat([15]);
    assert Mutual5()
        == a[17 := Pointer(Some(0))][18 := Optional(17)][19 := Concat([18])][20 := Optional(19)][21 := Concat([20])];
    hide *;
    var b := a[17 := Pointer(Some(0))];
    ClonedBare(a, 17, 12);
    ClonedAround(a, 17, 13, 12, b, 18, 17);
    ClonedAround(a, 17, 14, 13, b[18 := Optional(17)], 19, 18);
    ClonedAround(a, 17, 15, 14, b[18 := Optional(17)][19 := Concat([18])], 20, 19);
    ClonedAround(a, 17, 16, 15, b[18 := Optional(17)][19 := Concat([18])][20 := Optional(19)], 21, 20);
  }

  lemma {:induction false} MutualTokens()
    ensures 0 in Mutual0() && Mutual0()[0] == Concat([1]) && 1 in Mutual0() && Mutual0()[1] == Optional(2)
    ensures 2 in Mutual0() && Mutual0()[2] == Pointer(Some(3)) && 3 in Mutual0() && Mutual0()[3] == Concat([4])
    ensures 11 in Mutual3() && Mutual3()[11] == Concat([10]) && 10 in Mutual3() && Mutual3()[10] == Optional(9)
    ensures 9 in Mutual3() && Mutual3()[9] == Pointer(Some(0)) && 0 in Mutual3() && Mutual3()[0] == Concat([1])
    ensures 21 in Mutual6() && Mutual6()[21] == Concat([20]) && 20 in Mutual6() && Mutual6()[20] == Optional(19)
    ensures 19 in Mutual6() && Mutual6()[19] == Concat([18]) && 18 in Mutual6() && Mutual6()[18] == Optional(17)
    ensures 17 in Mutual6() && Mutual6()[17] == Pointer(Some(0)) && 0 in Mutual6() && Mutual6()[0] == Concat([1])
  {
  }

  lemma {:induction false} MutualKids()
    ensures Kids(Concat([1])) == [1] && Kids(Optional(2)) == [2] && Kids(Concat([10])) == [10]
        && Kids(Optional(9)) == [9]
    ensures Kids(Concat([20])) == [20] && Kids(Optional(19)) == [19] && Kids(Concat([18])) == [18]
        && Kids(Optional(17)) == [17]
  {
  }

  lemma {:induction false} MutualLinks(i1: Item, i10: Item, a: map<Ref, nat>)
    requires i1.Item? && i1.tok == 1 && i10.Item? && i10.tok == 10
    ensures InPlaceOf(Mutual2(), Item(2, i1, map[]), 11, Optional(11))
    ensures InPlaceOf(Mutual5(), Item(9, i10, a), 21, Optional(21))
    ensures Mutual2()[2 := Pointer(Some(11))][1 := Optional(11)] == Mutual3()
    ensures Mutual5()[9 := Pointer(Some(21))][10 := Optional(21)] == Mutual6()
  {
  }

  lemma {:induction false} MutualCut(i19: Item, b: map<Ref, nat>)
    requires i19.Item? && i19.tok == 19
    ensures Climb(Mutual6()[17 := Pointer(None)], Item(18, i19, b), 17) == (Mutual7(), false)
  {
    var g := Mutual6()[17 := Pointer(None)];
    assert g[18] == Optional(17) && g[19] == Concat([18]) && OptionalType(g[18]) && Mutual7() == g[19 := Concat([])];
    assert Dropped([18], 18) == [];
    hide *;
    GoesAlong(g, Item(18, i19, b), 17);
    ConcatStays(g, i19, 18);
  }

  lemma {:induction false} MutualRuns() returns (m: Machine)
    ensures Ends(1, Mutual0(), 0, 6, m, Unrolled) && m.h == Mutual7() && m.root == 0 && !m.climbed
    ensures m.originals == map[][3 := 3][11 := 3][0 := 0][21 := 0]
  {
    hide *;
    var i0 := Item(0, NoItem, map[]);
    var i1 := Item(1, i0, map[]);
    var m0 := Initial(Mutual0(), 0, 6);
    Start(1, Mutual0(), 0, 6);
    MutualTokens();
    MutualKids();
    MutualClones();
    m := Down1(1, m0, m0, 0, i0, [], 1);
    m := Down1(1, m0, m, 1, i1, [], 2);
    var a: map<Ref, nat> := map[][3 := 1];
    var i11 := Item(11, i1, a);
    var i10 := Item(10, i11, a);
    MutualLinks(i1, i10, a);
    m := ExpandNew(1, m0, m, 2, Item(2, i1, map[]), [], 3, Mutual1(), 9, 8, Mutual2(), 12, 11, Optional(11));
    m := Down1(1, m0, m, 3, i11, [], 10);
    m := Down1(1, m0, m, 4, i10, [], 9);
    MutualCloned();
    MutualClonedAgain();
    m := ExpandNew(1, m0, m, 5, Item(9, i10, a), [], 0, Mutual4(), 17, 16, Mutual5(), 22, 21, Optional(21));
    m := MutualRest(m0, m, i10, a[0 := 1]);
  }

  lemma {:induction false} MutualRest(m0: Machine, m1: Machine, i10: Item, b: map<Ref, nat>) returns (m: Machine)
    requires Goes(1, m0, m1, 6) && m0 == Initial(Mutual0(), 0, 6) && 0 in b && b[0] == 1
    requires m1 == Machine(Mutual6(), 22, 0, map[][3 := 3][11 := 3][0 := 0][21 := 0], map[][3 := 8][0 := 16],
                           [Item(21, i10, b)] + [], {}, false)
    ensures Ends(1, Mutual0(), 0, 6, m, Unrolled) && m.h == Mutual7() && m.root == 0 && !m.climbed
        && m.originals == m1.originals
  {
    hide *;
    MutualTokens();
    MutualKids();
    var i21 := Item(21, i10, b);
    var i20 := Item(20, i21, b);
    var i19 := Item(19, i20, b);
    var i18 := Item(18, i19, b);
    m := Down1(1, m0, m1, 6, i21, [], 20);
    m := Down1(1, m0, m, 7, i20, [], 19);
    m := Down1(1, m0, m, 8, i19, [], 18);
    m := Down1(1, m0, m, 9, i18, [], 17);
    MutualCut(i19, b);
    m := CutOff(1, m0, m, 10, Item(17, i18, b), [], 0, 0, Mutual7(), false);
    Finish(1, Mutual0(), 0, 6, m, 11);
  }

  /** START, A, START, A. */
  function MutualPath(): seq<Ref> {
    [0, 1, 11, 10, 21, 20, 19]
  }

  lemma {:induction false} StandsOnlyFor(h: Graph, a: Ref, b: Ref)
    requires a in h && !h[a].Pointer? && Stands(h, a, b)
    ensures a == b
  {
    var n: nat :| Leads(h, a, b, n);
  }

  /** The last token of the path is a copy of A, wherever the tokens may come from. */
  lemma {:induction false} MutualSource(src: Source)
    requires Simulates(Mutual0(), Mutual7(), src) && 21 in src && src[21] == 0
    ensures 20 in src && src[20] == 1 && 19 in src && src[19] == 3
  {
    var h, g := Mutual0(), Mutual7();
    assert h[0] == Concat([1]) && h[1] == Optional(2) && h[2] == Pointer(Some(3)) && h[3] == Concat([4]);
    assert g[21] == Concat([20]) && g[20] == Optional(19) && g[19] == Concat([]);
    assert SimNode(h, src, g[21], h[0]);
    assert Embeds(h, src, [20], [1]);
    assert !Embeds(h, src, [20], [1][1..]);
    StandsOnlyFor(h, 1, src[20]);
    assert SimNode(h, src, g[20], h[1]) && SimNode(h, src, g[19], h[src[19]]);
    hide Simulates, Embeds, Mutual0, Mutual7;
    StandsBeyond(h, 2, src[19]);
    StandsOnlyFor(h, 3, src[19]);
  }

  lemma {:induction false} MutualKinds(src: Source)
    requires Simulates(Mutual0(), Mutual7(), src)
    ensures 1 in src && src[1] != 3 && 10 in src && src[10] != 3
  {
    var h, g := Mutual0(), Mutual7();
    assert g[1].Optional? && g[10].Optional? && h[3].Concat?;
    assert SimNode(h, src, g[1], h[src[1]]) && SimNode(h, src, g[10], h[src[10]]);
  }

  lemma {:induction false} MutualIsPath()
    ensures Path(Mutual7(), 0, MutualPath())
  {
    hide *;
    var g := Mutual7();
    MutualEdges();
    PathMore(g, 20, 19, []);
    assert [19] + [] == [19];
    PathMore(g, 21, 20, [19]);
    PathMore(g, 10, 21, [20] + [19]);
    PathMore(g, 11, 10, [21] + ([20] + [19]));
    PathMore(g, 1, 11, [10] + ([21] + ([20] + [19])));
    PathMore(g, 0, 1, [11] + ([10] + ([21] + ([20] + [19]))));
    MutualPathIs();
  }

  lemma {:induction false} MutualPathIs()
    ensures MutualPath() == [0] + ([1] + ([11] + ([10] + ([21] + ([20] + [19])))))
  {
  }

  lemma {:induction false} MutualEdges()
    ensures var g := Mutual7();
            && {0, 1, 11, 10, 21, 20, 19} <= g.Keys && Path(g, 19, [19] + [])
            && 1 in Kids(g[0]) && 11 in Kids(g[1]) && 10 in Kids(g[11]) && 21 in Kids(g[10]) && 20 in Kids(g[21])
            && 19 in Kids(g[20])
  {
    var g := Mutual7();
    assert g[0] == Concat([1]) && g[1] == Optional(11) && g[11] == Concat([10]) && g[10] == Optional(21);
    assert g[21] == Concat([20]) && g[20] == Optional(19);
  }

  lemma {:induction false} PathMore(g: Graph, a: Ref, k: Ref, p: seq<Ref>)
    requires a in g && k in Kids(g[a]) && Path(g, k, [k] + p)
    ensures Path(g, a, [a] + ([k] + p))
  {
    var q := [a] + ([k] + p);
    forall i | 0 <= i < |q| - 1 ensures q[i] in g && q[i + 1] in Kids(g[q[i]]) {
      if i > 0 { assert q[i] == ([k] + p)[i - 1] && q[i + 1] == ([k] + p)[i]; }
    }
  }

  lemma {:induction false} CopiesOn(src: Source, k: Ref, p: seq<Ref>, y: Ref)
    ensures Copies(src, [k] + p, y) == (if k in src && src[k] == y then 1 else 0) + Copies(src, p, y)
  {
    assert ([k] + p)[1..] == p;
  }

  lemma {:induction false} MutualCopies(src: Source)
    requires 0 in src && src[0] == 0 && 1 in src && src[1] != 3 && 11 in src && src[11] == 3 && 10 in src
        && src[10] != 3
    requires 21 in src && src[21] == 0 && 20 in src && src[20] == 1 && 19 in src && src[19] == 3
    ensures Copies(src, MutualPath(), 3) == 2
  {
    assert Copies(src, [], 3) == 0;
    assert MutualPath() == [0] + ([1] + ([11] + ([10] + ([21] + ([20] + ([19] + []))))));
    hide Copies, MutualPath;
    CopiesOn(src, 19, [], 3);
    CopiesOn(src, 20, [19] + [], 3);
    CopiesOn(src, 21, [20] + ([19] + []), 3);
    CopiesOn(src, 10, [21] + ([20] + ([19] + [])), 3);
    CopiesOn(src, 11, [10] + ([21] + ([20] + ([19] + []))), 3);
    CopiesOn(src, 1, [11] + ([10] + ([21] + ([20] + ([19] + [])))), 3);
    CopiesOn(src, 0, [1] + ([11] + ([10] + ([21] + ([20] + ([19] + []))))), 3);
  }

  lemma {:induction false} ExpansionsOn(originals: map<Ref, Ref>, p: seq<Ref>, k: Ref, o: Ref)
    ensures Expansions(originals, p + [k], o)
            == Expansions(originals, p, o) + if k in originals && originals[k] != k && originals[k] == o then 1 else 0
  {
    assert (p + [k])[..|p|] == p;
  }

  lemma {:induction false} MutualExpansions(originals: map<Ref, Ref>)
    requires originals == map[][3 := 3][11 := 3][0 := 0][21 := 0]
    ensures Expansions(originals, MutualPath(), 3) == 1
  {
    assert Expansions(originals, [], 3) == 0;
    assert MutualPath() == [] + [0] + [1] + [11] + [10] + [21] + [20] + [19];
    hide Expansions, MutualPath;
    ExpansionsOn(originals, [], 0, 3);
    ExpansionsOn(originals, [] + [0], 1, 3);
    ExpansionsOn(originals, [] + [0] + [1], 11, 3);
    ExpansionsOn(originals, [] + [0] + [1] + [11], 10, 3);
    ExpansionsOn(originals, [] + [0] + [1] + [11] + [10], 21, 3);
    ExpansionsOn(originals, [] + [0] + [1] + [11] + [10] + [21], 20, 3);
    ExpansionsOn(originals, [] + [0] + [1] + [11] + [10] + [21] + [20], 19, 3);
  }

  /** With MaxRepeat 1, a path has two copies of A, only one of them made by an expansion of A. */
  lemma {:induction false} MoreCopiesThanExpansions() returns (end: Machine)
    ensures Ends(1, Mutual0(), 0, 6, end, Unrolled) && !end.climbed && Path(end.h, end.root, MutualPath())
    ensures Expansions(end.originals, MutualPath(), 3) == 1
    ensures forall src :: ComesFrom(Mutual0(), 0, end.h, end.root, end.originals, src) ==>
        Copies(src, MutualPath(), 3) == 2
  {
    hide *;
    end := MutualRuns();
    MutualIsPath();
    MutualExpansions(end.originals);
    forall src | ComesFrom(Mutual0(), 0, end.h, end.root, end.originals, src)
      ensures Copies(src, MutualPath(), 3) == 2 {
      MutualFrom(src, end.originals);
      MutualSource(src);
      MutualKinds(src);
      MutualCopies(src);
    }
  }

  lemma {:induction false} MutualFrom(src: Source, originals: map<Ref, Ref>)
    requires originals == map[][3 := 3][11 := 3][0 := 0][21 := 0]
    requires ComesFrom(Mutual0(), 0, Mutual7(), 0, originals, src)
    ensures Simulates(Mutual0(), Mutual7(), src) && 0 in src && src[0] == 0 && 11 in src && src[11] == 3 && 21 in src
        && src[21] == 0
  {
    hide Simulates, Stands;
    assert 0 in originals && originals[0] == 0 && 11 in originals && originals[11] == 3 && 21 in originals
        && originals[21] == 0;
  }

  // ---------- MaxRepeat 0 ----------

  function Zero0(): Graph {
    map[0 := Optional(1), 1 := Pointer(Some(2)), 2 := Text("a")]
  }

  function Zero1(): Graph {
    Zero0()[3 := Text("a")]
  }

  function Zero2(): Graph {
    Zero1()[4 := Text("a")]
  }

  function Zero3(): Graph {
    Zero2()[1 := Pointer(Some(4))][0 := Optional(4)]
  }

  lemma {:induction false} ZeroTokens()
    ensures 0 in Zero0() && Zero0()[0] == Optional(1) && 1 in Zero0() && Zero0()[1] == Pointer(Some(2))
        && Kids(Optional(1)) == [1]
    ensures 2 in Zero0() && Zero0()[2] == Text("a") && Kids(Text("a")) == [] && 3 in Zero1() && Zero1()[3] == Text("a")
    ensures Zero0()[3 := Text("a")] == Zero1() && Zero1()[4 := Text("a")] == Zero2()
    ensures InPlaceOf(Zero2(), Item(1, Item(0, NoItem, map[]), map[]), 4, Optional(4))
    ensures Zero2()[1 := Pointer(Some(4))][0 := Optional(4)] == Zero3() && 4 in Zero3() && Zero3()[4] == Text("a")
  {
  }

  lemma {:induction false} ZeroPrints()
    ensures Prints(Zero3(), 0, "a")
  {
    var d := Derivation([]);
    assert Zero3()[0] == Optional(4) && Yields(Zero3(), 4, d, "a");
    assert Yields(Zero3(), 0, Derivation([d]), "a");
  }

  /** With MaxRepeat 0 an original is expanded once. */
  lemma {:induction false} ZeroExpandsOnce() returns (end: Machine)
    ensures Ends(0, Zero0(), 0, 3, end, Unrolled) && !end.climbed && Prints(end.h, end.root, "a")
    ensures 4 in end.originals && end.originals[4] == 2
  {
    hide *;
    var i0 := Item(0, NoItem, map[]);
    var m0 := Initial(Zero0(), 0, 3);
    Start(0, Zero0(), 0, 3);
    ZeroTokens();
    end := Down1(0, m0, m0, 0, i0, [], 1);
    ClonedBare(Zero0(), 3, 2);
    ClonedBare(Zero1(), 4, 3);
    end := ExpandNew(0, m0, end, 1, Item(1, i0, map[]), [], 2, Zero1(), 4, 3, Zero2(), 5, 4, Optional(4));
    end := Down0(0, m0, end, 2, Item(4, i0, map[][2 := 1]), []);
    Finish(0, Zero0(), 0, 3, end, 3);
    ZeroPrints();
  }

  // ---------- an optional alternative ----------

  /** START = "a" | ?(X), X = Scope(X). */
  function Skip(): Graph {
    map[0 := One([1, 2]), 1 := Text("a"), 2 := Optional(3), 3 := Pointer(Some(4)), 4 := Scope(5), 5 := Pointer(Some(4))]
  }

  lemma {:induction false} SkipTokens()
    ensures 0 in Skip() && Skip()[0] == One([1, 2]) && 1 in Skip() && Skip()[1] == Text("a") && 2 in Skip()
        && Skip()[2] == Optional(3)
    ensures 3 in Skip() && Skip()[3] == Pointer(Some(4)) && 4 in Skip() && Skip()[4] == Scope(5)
    ensures 5 in Skip() && Skip()[5] == Pointer(Some(4))
    ensures Aim(Skip(), 3, {}) == At(4) && Aim(Skip(), 5, {}) == At(4)
  {
  }

  /** Nothing is left of the optional alternative. */
  lemma {:induction false} SkipNothing(rank: map<Ref, nat>)
    requires Formed(Skip(), rank)
    ensures 2 in Skip() && Unfold(Skip(), rank, 1, 2, map[]) == None
  {
    var h := Skip();
    var c := Bump(map[], 4);
    SkipTokens();
    assert Grows(h, 1, 3, map[]) && !Grows(h, 1, 5, c);
    assert Kids(Optional(3)) == [3] && Kids(Scope(5)) == [5];
    assert Unfold(h, rank, 1, 5, c) == None;
    hide Unfold, Formed, Grows, Bump;
    UnfoldWrapped(h, rank, 1, 4, c);
    UnfoldPointer(h, rank, 1, 3, map[]);
    UnfoldWrapped(h, rank, 1, 2, map[]);
  }

  lemma {:induction false} SkipLeft(rank: map<Ref, nat>)
    requires Formed(Skip(), rank)
    ensures 0 in Skip() && Unfold(Skip(), rank, 1, 0, map[]) == Some(Tree(0, [Tree(1, [])]))
  {
    var h := Skip();
    SkipTokens();
    SkipNothing(rank);
    assert Unfold(h, rank, 1, 1, map[]) == Some(Tree(1, []));
    hide Unfold, Formed, UnfoldAlternatives;
    UnfoldOne(h, rank, 1, 0, map[]);
    assert [1, 2][0] == 1 && [1, 2][1..] == [2] && [2][0] == 2 && [2][1..] == [];
    UnfoldAlternativesStep(h, rank, 1, [1, 2], map[], rank[0]);
    UnfoldAlternativesStep(h, rank, 1, [2], map[], rank[0]);
    NoAlternatives(h, rank, map[], rank[0]);
    assert [Tree(1, [])] + [] == [Tree(1, [])];
  }

  lemma {:induction false} NoAlternatives(h: Graph, rank: map<Ref, nat>, counts: map<Ref, nat>, bound: nat)
    requires Formed(h, rank)
    ensures UnfoldAlternatives(h, rank, 1, [], counts, bound) == []
  {
    hide Formed;
  }

  lemma {:induction false} SkipPrints(g: Graph, src: Source, s: Ref, d: Derivation, w: string)
    requires Looks(Skip(), g, src, s, Tree(0, [Tree(1, [])])) && Yields(g, s, d, w)
    ensures w == "a"
  {
    var t := Tree(0, [Tree(1, [])]);
    assert Looks(Skip(), g, src, Kids(g[s])[0], t.parts[0]);
  }

  lemma {:induction false} SkipWithin()
    ensures PrintsWithin(true, Skip(), 1, 0, "")
  {
    SkipTokens();
    var e := Derivation([]);
    var d := Derivation([e]);
    assert Within(true, Skip(), 1, 2, map[], e, "");
    assert [1, 2][1] == 2;
    assert PartsWithin(true, Skip(), 1, 0, map[], d, "");
    assert Within(true, Skip(), 1, 0, map[], d, "");
  }

  /** A word within the limit is lost, because what may be skipped is not part of a concatenation. */
  lemma {:induction false} SkippedWordLost(rank: map<Ref, nat>, g: Graph, src: Source, s: Ref, climbed: bool)
    requires Unfolded(Skip(), rank, 1, 0, g, src, s, climbed)
    ensures !climbed && PrintsWithin(true, Skip(), 1, 0, "") && !Prints(g, s, "")
  {
    SkipLeft(rank);
    SkipWithin();
    hide Formed, Unfold, Looks, Yields, PrintsWithin;
    if Prints(g, s, "") {
      var d :| Yields(g, s, d, "");
      SkipPrints(g, src, s, d, "");
    }
  }

  // ---------- a Repeat that insists on an item ----------

  /** START = +(X), X = Scope(X): nothing can be printed. */
  function Forced0(): Graph {
    map[0 := Concat([1]), 1 := Repeat(2, 1, 1), 2 := Pointer(Some(3)), 3 := Scope(4), 4 := Pointer(Some(3))]
  }

  function Forced1(): Graph {
    Forced0()[5 := Pointer(Some(3))][6 := Scope(5)]
  }

  function Forced2(): Graph {
    Forced1()[7 := Pointer(Some(3))][8 := Scope(7)]
  }

  function Forced3(): Graph {
    Forced2()[2 := Pointer(Some(8))][1 := Repeat(8, 1, 1)]
  }

  /** The Repeat is taken from the concatenation as if it were optional. */
  function Forced4(): Graph {
    Forced3()[7 := Pointer(None)][0 := Concat([])]
  }

  lemma {:induction false} ForcedTokens()
    ensures 0 in Forced0() && Forced0()[0] == Concat([1]) && Kids(Concat([1])) == [1]
    ensures 1 in Forced0() && Forced0()[1] == Repeat(2, 1, 1) && Kids(Repeat(2, 1, 1)) == [2]
    ensures 2 in Forced0() && Forced0()[2] == Pointer(Some(3)) && 3 in Forced0() && Forced0()[3] == Scope(4)
    ensures 8 in Forced3() && Forced3()[8] == Scope(7) && Kids(Scope(7)) == [7]
    ensures 7 in Forced3() && Forced3()[7] == Pointer(Some(3)) && 3 in Forced3() && Forced3()[3] == Scope(4)
  {
  }

  lemma {:induction false} ForcedClones()
    ensures Cloned(Forced0(), 5, 3, Forced1(), 7, 6) && Cloned(Forced1(), 7, 6, Forced2(), 9, 8)
  {
    ScopeIs(4, 5);
    ScopeIs(5, 7);
    PointerIs(Some(3));
    assert 3 in Forced0() && Forced0()[3] == Scope(4) && 4 in Forced0() && Forced0()[4] == Pointer(Some(3));
    assert 6 in Forced1() && Forced1()[6] == Scope(5) && 5 in Forced1() && Forced1()[5] == Pointer(Some(3));
    assert Forced1() == Forced0()[5 := Pointer(Some(3))][6 := Scope(5)];
    assert Forced2() == Forced1()[7 := Pointer(Some(3))][8 := Scope(7)];
    hide *;
    ClonedBare(Forced0(), 5, 4);
    ClonedAround(Forced0(), 5, 3, 4, Forced0()[5 := Pointer(Some(3))], 6, 5);
    ClonedBare(Forced1(), 7, 5);
    ClonedAround(Forced1(), 7, 6, 5, Forced1()[7 := Pointer(Some(3))], 8, 7);
  }

  lemma {:induction false} ForcedLinks(i1: Item)
    requires i1.Item? && i1.tok == 1
    ensures InPlaceOf(Forced2(), Item(2, i1, map[]), 8, Repeat(8, 1, 1))
    ensures Forced2()[2 := Pointer(Some(8))][1 := Repeat(8, 1, 1)] == Forced3()
  {
    RepeatIs(2, 8, 1, 1);
    assert 1 in Forced2() && Forced2()[1] == Repeat(2, 1, 1);
    hide *;
    PlacedAlone(Forced2(), Item(2, i1, map[]), 8, Repeat(8, 1, 1));
  }

  lemma {:induction false} ForcedCut(i0: Item, a: map<Ref, nat>)
    requires i0.Item? && i0.tok == 0
    ensures Climb(Forced3()[7 := Pointer(None)], Item(8, Item(1, i0, map[]), a), 7) == (Forced4(), false)
  {
    var g := Forced3()[7 := Pointer(None)];
    assert g[8] == Scope(7) && g[1] == Repeat(8, 1, 1) && g[0] == Concat([1]) && OptionalType(g[1]);
    assert Kids(g[8]) == [7] && Kids(g[1]) == [8];
    assert Dropped([1], 1) == [] && Forced4() == g[0 := Concat([])];
    hide *;
    GoesAlong(g, Item(8, Item(1, i0, map[]), a), 7);
    GoesAlong(g, Item(1, i0, map[]), 8);
    ConcatStays(g, i0, 1);
  }

  lemma {:induction false} ForcedRuns() returns (end: Machine)
    ensures Ends(1, Forced0(), 0, 5, end, Unrolled) && !end.climbed && end.h == Forced4() && end.root == 0
  {
    hide *;
    var i0 := Item(0, NoItem, map[]);
    var i1 := Item(1, i0, map[]);
    var m0 := Initial(Forced0(), 0, 5);
    var a: map<Ref, nat> := map[][3 := 1];
    var i8 := Item(8, i1, a);
    Start(1, Forced0(), 0, 5);
    ForcedTokens();
    ForcedClones();
    ForcedLinks(i1);
    ForcedCut(i0, a);
    end := Down1(1, m0, m0, 0, i0, [], 1);
    end := Down1(1, m0, end, 1, i1, [], 2);
    end := ExpandNew(1, m0, end, 2, Item(2, i1, map[]), [], 3, Forced1(), 7, 6, Forced2(), 9, 8, Repeat(8, 1, 1));
    end := Down1(1, m0, end, 3, i8, [], 7);
    end := CutOff(1, m0, end, 4, Item(7, i8, a), [], 3, 3, Forced4(), false);
    Finish(1, Forced0(), 0, 5, end, 5);
  }

  lemma {:induction false} FirstYields(h: Graph, ts: seq<Ref>, ds: seq<Derivation>, w: string) returns (u: string)
    requires YieldsAll(h, ts, ds, w) && ts != []
    ensures ds != [] && Yields(h, ts[0], ds[0], u)
  {
    var i :| 0 <= i <= |w| && Yields(h, ts[0], ds[0], w[..i]) && YieldsAll(h, ts[1..], ds[1..], w[i..]);
    u := w[..i];
  }

  lemma {:induction false} ForcedSilent(x: Ref, d: Derivation, w: string)
    requires x <= 4
    ensures !Yields(Forced0(), x, d, w)
    decreases d
  {
    var h := Forced0();
    if Yields(h, x, d, w) {
      var u := w;
      if x == 0 { u := FirstYields(h, [1], d.parts, w); }
      if x == 1 { u := FirstYields(h, Times(2, |d.parts|), d.parts, w); }
      ForcedSilent(if x == 0 then 1 else if x == 1 then 2 else if x == 3 then 4 else 3, d.parts[0], u);
    }
  }

  lemma {:induction false} ForcedNotFree()
    requires !Prints(Forced0(), 1, "")
    ensures !DropsAreFree(Forced0())
  {
    var h := Forced0();
    assert 0 in h && h[0] == Concat([1]) && 1 in h && OptionalType(h[1]);
    hide Prints, Forced0;
    StandsItself(h, 1);
    assert Skippable(h, 1);
    assert 1 in h[0].tokens;
  }

  /** A Repeat counts as optional even if it insists on an item: here a grammar without words gets one. */
  lemma {:induction false} ForcedRepeatAddsWord() returns (end: Machine)
    ensures Ends(1, Forced0(), 0, 5, end, Unrolled) && !end.climbed && Prints(end.h, end.root, "")
    ensures (forall w :: !Prints(Forced0(), 0, w)) && !DropsAreFree(Forced0())
  {
    end := ForcedRuns();
    assert 0 in Forced4() && Forced4()[0] == Concat([]) && YieldsAll(Forced4(), [], [], "");
    assert Yields(Forced4(), 0, Derivation([]), "");
    forall w, x: Ref | x <= 1 ensures !Prints(Forced0(), x, w) {
      forall d ensures !Yields(Forced0(), x, d, w) { ForcedSilent(x, d, w); }
    }
    ForcedNotFree();
  }

  // ---------- a recursive format ----------

  /** START = A, A = "a" A | "b": the pointer leads to the token that is the child of the root. */
  function Rec(): Graph {
    map[0 := Scope(1), 1 := Scope(2), 2 := One([3, 6]), 3 := Concat([4, 5]), 4 := Text("a"), 5 := Pointer(Some(1)),
        6 := Text("b")]
  }

  lemma {:induction false} RecTokens()
    ensures 0 in Rec() && Rec()[0] == Scope(1) && 1 in Rec() && Rec()[1] == Scope(2)
    ensures 2 in Rec() && Rec()[2] == One([3, 6]) && 3 in Rec() && Rec()[3] == Concat([4, 5])
    ensures 4 in Rec() && Rec()[4] == Text("a") && 5 in Rec() && Rec()[5] == Pointer(Some(1))
    ensures 6 in Rec() && Rec()[6] == Text("b") && Aim(Rec(), 5, {}) == At(1)
  {
  }

  lemma {:induction false} RecNotIsolated(own: set<Ref>)
    ensures !Isolated(Rec(), 0, own)
  {
    RecTokens();
    var h := Rec();
    assert 1 in Kids(h[0]) && 2 in Kids(h[1]) && [3, 6][0] == 3 && 3 in Kids(h[2]);
    assert [4, 5][1] == 5 && 5 in Kids(h[3]);
  }

  function As(k: nat): string {
    if k == 0 then "b" else "a" + As(k - 1)
  }

  /** A prints k times "a", if k more expansions are allowed. */
  lemma {:induction false} RecWithin(limit: nat, counts: map<Ref, nat>, k: nat) returns (d: Derivation)
    requires CountOf(counts, 1) + k <= limit
    ensures Within(false, Rec(), limit, 1, counts, d, As(k))
    decreases k
  {
    var h, w := Rec(), As(k);
    RecTokens();
    var none := Derivation([]);
    if k == 0 {
      assert [3, 6][1] == 6;
      assert Within(false, h, limit, 6, counts, none, w);
      d := Derivation([none]);
    } else {
      var e := RecWithin(limit, Bump(counts, 1), k - 1);
      var p := Derivation([e]);
      assert Within(false, h, limit, 5, counts, p, As(k - 1)) by {
        hide As;
        assert PartsWithin(false, h, limit, 5, counts, p, As(k - 1));
      }
      d := RecConcat(limit, counts, k, none, p);
      assert [3, 6][0] == 3;
      d := Derivation([d]);
    }
    hide As;
    assert PartsWithin(false, h, limit, 2, counts, d, w);
    d := Derivation([d]);
    assert PartsWithin(false, h, limit, 1, counts, d, w);
  }

  lemma {:induction false} RecConcat(limit: nat, counts: map<Ref, nat>, k: nat, none: Derivation, p: Derivation)
    returns (d: Derivation)
    requires k > 0 && Within(false, Rec(), limit, 5, counts, p, As(k - 1))
    ensures Within(false, Rec(), limit, 3, counts, d, As(k))
  {
    var h, w := Rec(), As(k);
    RecTokens();
    assert w[..1] == "a" && w[1..] == As(k - 1) && w[1..][|w| - 1..] == "" && w[1..][..|w| - 1] == As(k - 1);
    assert Within(false, h, limit, 4, counts, none, "a");
    hide As;
    assert [4, 5][1..] == [5] && [5][1..] == [];
    hide Within, Rec;
    assert WithinAll(false, true, h, limit, [], counts, [], "");
    var ds := WithinPrepended(false, h, limit, [5], counts, p, [], w[1..], |w| - 1);
    ds := WithinPrepended(false, h, limit, [4, 5], counts, none, ds, w, 1);
    d := Derivation(ds);
    assert PartsWithin(false, h, limit, 3, counts, d, w);
  }

  /** Something leads into the tree of the root of a recursive format; its words within the limit are there. */
  lemma {:induction false} RecursiveWordsKept(limit: nat, k: nat, g: Graph, s: Ref, climbed: bool)
    requires LosesNothing(Rec(), limit, 0, g, s, climbed) && k <= limit
    ensures !climbed && Prints(g, s, As(k)) && forall own :: !Isolated(Rec(), 0, own)
  {
    forall own ensures !Isolated(Rec(), 0, own) { RecNotIsolated(own); }
    var d := RecWithin(limit, map[], k);
    RecTokens();
    var h, e := Rec(), Derivation([d]);
    hide As, Prints, Rec;
    assert PartsWithin(false, h, limit, 0, map[], e, As(k));
    assert PrintsWithin(false, h, limit, 0, As(k)) by { assert Within(false, h, limit, 0, map[], e, As(k)); }
  }
}
