/** The start-of-packet and start-of-message positions of the three streams
    of test_day06, worked out window by window. */
module MarkerSamples {
  import opened Wrappers
  import opened Markers

  /** The three streams of the tests. */
  const StreamOne := "mjqjpqmgbljsphdztnvjfqwrcgsmlb"
  const StreamTwo := "bvwbjplbgvbhsrlpgdmjqwftvncz"
  const StreamThree := "nznrnfrfntjfmvfwmzdfjlvtqnbhcprsg"

  lemma PacketWindowOne()
    ensures AllDistinct(StreamOne[3..7])
  {
    var s := StreamOne;
    assert Distinct(s, 6, 7);
    assert Distinct(s, 5, 7);
    assert Distinct(s, 4, 7);
    assert Distinct(s, 3, 7);
    DistinctSound(s, 3, 7);
  }

  lemma PacketEarlierOne()
    ensures forall j :: 4 <= j < 7 ==> !IsMarker(StreamOne, 4, j)
  {
    var s := StreamOne;
    forall j | 4 <= j < 7 ensures !IsMarker(s, 4, j) {
      if j == 4 {
        Repeat(s, 0, 4, 1, 3);
      } else if j == 5 {
        Repeat(s, 1, 5, 1, 3);
      } else {
        Repeat(s, 2, 6, 2, 5);
      }
    }
  }

  lemma PacketExampleOne()
    ensures StartIndex(StreamOne, 4) == Some(7)
  {
    PacketWindowOne();
    PacketEarlierOne();
    MarkerAt(StreamOne, 4, 7);
  }

  lemma PacketWindowTwo()
    ensures AllDistinct(StreamTwo[1..5])
  {
    var s := StreamTwo;
    assert Distinct(s, 4, 5);
    assert Distinct(s, 3, 5);
    assert Distinct(s, 2, 5);
    assert Distinct(s, 1, 5);
    DistinctSound(s, 1, 5);
  }

  lemma PacketEarlierTwo()
    ensures forall j :: 4 <= j < 5 ==> !IsMarker(StreamTwo, 4, j)
  {
    var s := StreamTwo;
    forall j | 4 <= j < 5 ensures !IsMarker(s, 4, j) {
      Repeat(s, 0, 4, 0, 3);
    }
  }

  lemma PacketExampleTwo()
    ensures StartIndex(StreamTwo, 4) == Some(5)
  {
    PacketWindowTwo();
    PacketEarlierTwo();
    MarkerAt(StreamTwo, 4, 5);
  }

  lemma PacketWindowThree()
    ensures AllDistinct(StreamThree[6..10])
  {
    var s := StreamThree;
    assert Distinct(s, 9, 10);
    assert Distinct(s, 8, 10);
    assert Distinct(s, 7, 10);
    assert Distinct(s, 6, 10);
    DistinctSound(s, 6, 10);
  }

  lemma PacketEarlierThree()
    ensures forall j :: 4 <= j < 10 ==> !IsMarker(StreamThree, 4, j)
  {
    var s := StreamThree;
    forall j | 4 <= j < 10 ensures !IsMarker(s, 4, j) {
      if j == 4 {
        Repeat(s, 0, 4, 0, 2);
      } else if j == 5 {
        Repeat(s, 1, 5, 2, 4);
      } else if j == 6 {
        Repeat(s, 2, 6, 2, 4);
      } else if j == 7 {
        Repeat(s, 3, 7, 3, 6);
      } else if j == 8 {
        Repeat(s, 4, 8, 5, 7);
      } else {
        Repeat(s, 5, 9, 5, 7);
      }
    }
  }

  lemma PacketExampleThree()
    ensures StartIndex(StreamThree, 4) == Some(10)
  {
    PacketWindowThree();
    PacketEarlierThree();
    MarkerAt(StreamThree, 4, 10);
  }

  /** Each character of the marker window of stream one is absent from
      the rest of the window. */
  lemma MessageAbsentOneAt5()
    ensures Absent(StreamOne, 5, 6, 19)
  {
    var s := StreamOne;
    assert Absent(s, 5, 6, 12) && Absent(s, 5, 12, 19);
    AbsentSplit(s, 5, 6, 12, 19);
  }

  lemma MessageAbsentOneAt6()
    ensures Absent(StreamOne, 6, 7, 19)
  {
    var s := StreamOne;
    assert Absent(s, 6, 7, 13) && Absent(s, 6, 13, 19);
    AbsentSplit(s, 6, 7, 13, 19);
  }

  lemma MessageAbsentOneAt7()
    ensures Absent(StreamOne, 7, 8, 19)
  {
    var s := StreamOne;
    assert Absent(s, 7, 8, 14) && Absent(s, 7, 14, 19);
    AbsentSplit(s, 7, 8, 14, 19);
  }

  lemma MessageAbsentOneAt8()
    ensures Absent(StreamOne, 8, 9, 19)
  {
    var s := StreamOne;
    assert Absent(s, 8, 9, 15) && Absent(s, 8, 15, 19);
    AbsentSplit(s, 8, 9, 15, 19);
  }

  lemma MessageAbsentOneAt9()
    ensures Absent(StreamOne, 9, 10, 19)
  {
    var s := StreamOne;
    assert Absent(s, 9, 10, 16) && Absent(s, 9, 16, 19);
    AbsentSplit(s, 9, 10, 16, 19);
  }

  lemma MessageAbsentOneAt10()
    ensures Absent(StreamOne, 10, 11, 19)
  {
    var s := StreamOne;
    assert Absent(s, 10, 11, 17) && Absent(s, 10, 17, 19);
    AbsentSplit(s, 10, 11, 17, 19);
  }

  lemma MessageAbsentOneAt11()
    ensures Absent(StreamOne, 11, 12, 19)
  {
    var s := StreamOne;
    assert Absent(s, 11, 12, 18) && Absent(s, 11, 18, 19);
    AbsentSplit(s, 11, 12, 18, 19);
  }

  lemma MessageAbsentOneAt12()
    ensures Absent(StreamOne, 12, 13, 19)
  {
    var s := StreamOne;
    assert Absent(s, 12, 13, 19);
  }

  lemma MessageAbsentOneAt13()
    ensures Absent(StreamOne, 13, 14, 19)
  {
    var s := StreamOne;
    assert Absent(s, 13, 14, 19);
  }

  lemma MessageAbsentOneAt14()
    ensures Absent(StreamOne, 14, 15, 19)
  {
    var s := StreamOne;
    assert Absent(s, 14, 15, 19);
  }

  lemma MessageAbsentOneAt15()
    ensures Absent(StreamOne, 15, 16, 19)
  {
    var s := StreamOne;
    assert Absent(s, 15, 16, 19);
  }

  lemma MessageAbsentOneAt16()
    ensures Absent(StreamOne, 16, 17, 19)
  {
    var s := StreamOne;
    assert Absent(s, 16, 17, 19);
  }

  lemma MessageAbsentOneAt17()
    ensures Absent(StreamOne, 17, 18, 19)
  {
    var s := StreamOne;
    assert Absent(s, 17, 18, 19);
  }

  lemma MessageAbsentOneAt18()
    ensures Absent(StreamOne, 18, 19, 19)
  {
    var s := StreamOne;
    assert Absent(s, 18, 19, 19);
  }

  lemma MessageWindowOne()
    ensures AllDistinct(StreamOne[5..19])
  {
    var s := StreamOne;
    MessageAbsentOneAt18();
    assert Distinct(s, 18, 19);
    MessageAbsentOneAt17();
    assert Distinct(s, 17, 19);
    MessageAbsentOneAt16();
    assert Distinct(s, 16, 19);
    MessageAbsentOneAt15();
    assert Distinct(s, 15, 19);
    MessageAbsentOneAt14();
    assert Distinct(s, 14, 19);
    MessageAbsentOneAt13();
    assert Distinct(s, 13, 19);
    MessageAbsentOneAt12();
    assert Distinct(s, 12, 19);
    MessageAbsentOneAt11();
    assert Distinct(s, 11, 19);
    MessageAbsentOneAt10();
    assert Distinct(s, 10, 19);
    MessageAbsentOneAt9();
    assert Distinct(s, 9, 19);
    MessageAbsentOneAt8();
    assert Distinct(s, 8, 19);
    MessageAbsentOneAt7();
    assert Distinct(s, 7, 19);
    MessageAbsentOneAt6();
    assert Distinct(s, 6, 19);
    MessageAbsentOneAt5();
    assert Distinct(s, 5, 19);
    DistinctSound(s, 5, 19);
  }

  lemma MessageEarlierOne()
    ensures forall j :: 14 <= j < 19 ==> !IsMarker(StreamOne, 14, j)
  {
    var s := StreamOne;
    forall j | 14 <= j < 19 ensures !IsMarker(s, 14, j) {
      if j == 14 {
        Repeat(s, 0, 14, 0, 6);
      } else if j == 15 {
        Repeat(s, 1, 15, 1, 3);
      } else if j == 16 {
        Repeat(s, 2, 16, 2, 5);
      } else if j == 17 {
        Repeat(s, 3, 17, 3, 10);
      } else {
        Repeat(s, 4, 18, 4, 12);
      }
    }
  }

  lemma MessageExampleOne()
    ensures StartIndex(StreamOne, 14) == Some(19)
  {
    MessageWindowOne();
    MessageEarlierOne();
    MarkerAt(StreamOne, 14, 19);
  }

  /** Each character of the marker window of stream two is absent from
      the rest of the window. */
  lemma MessageAbsentTwoAt9()
    ensures Absent(StreamTwo, 9, 10, 23)
  {
    var s := StreamTwo;
    assert Absent(s, 9, 10, 16) && Absent(s, 9, 16, 23);
    AbsentSplit(s, 9, 10, 16, 23);
  }

  lemma MessageAbsentTwoAt10()
    ensures Absent(StreamTwo, 10, 11, 23)
  {
    var s := StreamTwo;
    assert Absent(s, 10, 11, 17) && Absent(s, 10, 17, 23);
    AbsentSplit(s, 10, 11, 17, 23);
  }

  lemma MessageAbsentTwoAt11()
    ensures Absent(StreamTwo, 11, 12, 23)
  {
    var s := StreamTwo;
    assert Absent(s, 11, 12, 18) && Absent(s, 11, 18, 23);
    AbsentSplit(s, 11, 12, 18, 23);
  }

  lemma MessageAbsentTwoAt12()
    ensures Absent(StreamTwo, 12, 13, 23)
  {
    var s := StreamTwo;
    assert Absent(s, 12, 13, 19) && Absent(s, 12, 19, 23);
    AbsentSplit(s, 12, 13, 19, 23);
  }

  lemma MessageAbsentTwoAt13()
    ensures Absent(StreamTwo, 13, 14, 23)
  {
    var s := StreamTwo;
    assert Absent(s, 13, 14, 20) && Absent(s, 13, 20, 23);
    AbsentSplit(s, 13, 14, 20, 23);
  }

  lemma MessageAbsentTwoAt14()
    ensures Absent(StreamTwo, 14, 15, 23)
  {
    var s := StreamTwo;
    assert Absent(s, 14, 15, 21) && Absent(s, 14, 21, 23);
    AbsentSplit(s, 14, 15, 21, 23);
  }

  lemma MessageAbsentTwoAt15()
    ensures Absent(StreamTwo, 15, 16, 23)
  {
    var s := StreamTwo;
    assert Absent(s, 15, 16, 22) && Absent(s, 15, 22, 23);
    AbsentSplit(s, 15, 16, 22, 23);
  }

  lemma MessageAbsentTwoAt16()
    ensures Absent(StreamTwo, 16, 17, 23)
  {
    var s := StreamTwo;
    assert Absent(s, 16, 17, 23);
  }

  lemma MessageAbsentTwoAt17()
    ensures Absent(StreamTwo, 17, 18, 23)
  {
    var s := StreamTwo;
    assert Absent(s, 17, 18, 23);
  }

  lemma MessageAbsentTwoAt18()
    ensures Absent(StreamTwo, 18, 19, 23)
  {
    var s := StreamTwo;
    assert Absent(s, 18, 19, 23);
  }

  lemma MessageAbsentTwoAt19()
    ensures Absent(StreamTwo, 19, 20, 23)
  {
    var s := StreamTwo;
    assert Absent(s, 19, 20, 23);
  }

  lemma MessageAbsentTwoAt20()
    ensures Absent(StreamTwo, 20, 21, 23)
  {
    var s := StreamTwo;
    assert Absent(s, 20, 21, 23);
  }

  lemma MessageAbsentTwoAt21()
    ensures Absent(StreamTwo, 21, 22, 23)
  {
    var s := StreamTwo;
    assert Absent(s, 21, 22, 23);
  }

  lemma MessageAbsentTwoAt22()
    ensures Absent(StreamTwo, 22, 23, 23)
  {
    var s := StreamTwo;
    assert Absent(s, 22, 23, 23);
  }

  lemma MessageWindowTwo()
    ensures AllDistinct(StreamTwo[9..23])
  {
    var s := StreamTwo;
    MessageAbsentTwoAt22();
    assert Distinct(s, 22, 23);
    MessageAbsentTwoAt21();
    assert Distinct(s, 21, 23);
    MessageAbsentTwoAt20();
    assert Distinct(s, 20, 23);
    MessageAbsentTwoAt19();
    assert Distinct(s, 19, 23);
    MessageAbsentTwoAt18();
    assert Distinct(s, 18, 23);
    MessageAbsentTwoAt17();
    assert Distinct(s, 17, 23);
    MessageAbsentTwoAt16();
    assert Distinct(s, 16, 23);
    MessageAbsentTwoAt15();
    assert Distinct(s, 15, 23);
    MessageAbsentTwoAt14();
    assert Distinct(s, 14, 23);
    MessageAbsentTwoAt13();
    assert Distinct(s, 13, 23);
    MessageAbsentTwoAt12();
    assert Distinct(s, 12, 23);
    MessageAbsentTwoAt11();
    assert Distinct(s, 11, 23);
    MessageAbsentTwoAt10();
    assert Distinct(s, 10, 23);
    MessageAbsentTwoAt9();
    assert Distinct(s, 9, 23);
    DistinctSound(s, 9, 23);
  }

  lemma MessageEarlierFrontTwo()
    ensures forall j :: 14 <= j < 18 ==> !IsMarker(StreamTwo, 14, j)
  {
    var s := StreamTwo;
    forall j | 14 <= j < 18 ensures !IsMarker(s, 14, j) {
      if j == 14 {
        Repeat(s, 0, 14, 0, 3);
      } else if j == 15 {
        Repeat(s, 1, 15, 1, 9);
      } else if j == 16 {
        Repeat(s, 2, 16, 3, 7);
      } else {
        Repeat(s, 3, 17, 3, 7);
      }
    }
  }

  lemma MessageEarlierBackTwo()
    ensures forall j :: 18 <= j < 23 ==> !IsMarker(StreamTwo, 14, j)
  {
    var s := StreamTwo;
    forall j | 18 <= j < 23 ensures !IsMarker(s, 14, j) {
      if j == 18 {
        Repeat(s, 4, 18, 5, 15);
      } else if j == 19 {
        Repeat(s, 5, 19, 5, 15);
      } else if j == 20 {
        Repeat(s, 6, 20, 6, 14);
      } else if j == 21 {
        Repeat(s, 7, 21, 7, 10);
      } else {
        Repeat(s, 8, 22, 8, 16);
      }
    }
  }

  lemma MessageExampleTwo()
    ensures StartIndex(StreamTwo, 14) == Some(23)
  {
    MessageWindowTwo();
    MessageEarlierFrontTwo();
    MessageEarlierBackTwo();
    MarkerAt(StreamTwo, 14, 23);
  }

  /** Each character of the marker window of stream three is absent from
      the rest of the window. */
  lemma MessageAbsentThreeAt15()
    ensures Absent(StreamThree, 15, 16, 29)
  {
    var s := StreamThree;
    assert Absent(s, 15, 16, 22) && Absent(s, 15, 22, 29);
    AbsentSplit(s, 15, 16, 22, 29);
  }

  lemma MessageAbsentThreeAt16()
    ensures Absent(StreamThree, 16, 17, 29)
  {
    var s := StreamThree;
    assert Absent(s, 16, 17, 23) && Absent(s, 16, 23, 29);
    AbsentSplit(s, 16, 17, 23, 29);
  }

  lemma MessageAbsentThreeAt17()
    ensures Absent(StreamThree, 17, 18, 29)
  {
    var s := StreamThree;
    assert Absent(s, 17, 18, 24) && Absent(s, 17, 24, 29);
    AbsentSplit(s, 17, 18, 24, 29);
  }

  lemma MessageAbsentThreeAt18()
    ensures Absent(StreamThree, 18, 19, 29)
  {
    var s := StreamThree;
    assert Absent(s, 18, 19, 25) && Absent(s, 18, 25, 29);
    AbsentSplit(s, 18, 19, 25, 29);
  }

  lemma MessageAbsentThreeAt19()
    ensures Absent(StreamThree, 19, 20, 29)
  {
    var s := StreamThree;
    assert Absent(s, 19, 20, 26) && Absent(s, 19, 26, 29);
    AbsentSplit(s, 19, 20, 26, 29);
  }

  lemma MessageAbsentThreeAt20()
    ensures Absent(StreamThree, 20, 21, 29)
  {
    var s := StreamThree;
    assert Absent(s, 20, 21, 27) && Absent(s, 20, 27, 29);
    AbsentSplit(s, 20, 21, 27, 29);
  }

  lemma MessageAbsentThreeAt21()
    ensures Absent(StreamThree, 21, 22, 29)
  {
    var s := StreamThree;
    assert Absent(s, 21, 22, 28) && Absent(s, 21, 28, 29);
    AbsentSplit(s, 21, 22, 28, 29);
  }

  lemma MessageAbsentThreeAt22()
    ensures Absent(StreamThree, 22, 23, 29)
  {
    var s := StreamThree;
    assert Absent(s, 22, 23, 29);
  }

  lemma MessageAbsentThreeAt23()
    ensures Absent(StreamThree, 23, 24, 29)
  {
    var s := StreamThree;
    assert Absent(s, 23, 24, 29);
  }

  lemma MessageAbsentThreeAt24()
    ensures Absent(StreamThree, 24, 25, 29)
  {
    var s := StreamThree;
    assert Absent(s, 24, 25, 29);
  }

  lemma MessageAbsentThreeAt25()
    ensures Absent(StreamThree, 25, 26, 29)
  {
    var s := StreamThree;
    assert Absent(s, 25, 26, 29);
  }

  lemma MessageAbsentThreeAt26()
    ensures Absent(StreamThree, 26, 27, 29)
  {
    var s := StreamThree;
    assert Absent(s, 26, 27, 29);
  }

  lemma MessageAbsentThreeAt27()
    ensures Absent(StreamThree, 27, 28, 29)
  {
    var s := StreamThree;
    assert Absent(s, 27, 28, 29);
  }

  lemma MessageAbsentThreeAt28()
    ensures Absent(StreamThree, 28, 29, 29)
  {
    var s := StreamThree;
    assert Absent(s, 28, 29, 29);
  }

  lemma MessageWindowThree()
    ensures AllDistinct(StreamThree[15..29])
  {
    var s := StreamThree;
    MessageAbsentThreeAt28();
    assert Distinct(s, 28, 29);
    MessageAbsentThreeAt27();
    assert Distinct(s, 27, 29);
    MessageAbsentThreeAt26();
    assert Distinct(s, 26, 29);
    MessageAbsentThreeAt25();
    assert Distinct(s, 25, 29);
    MessageAbsentThreeAt24();
    assert Distinct(s, 24, 29);
    MessageAbsentThreeAt23();
    assert Distinct(s, 23, 29);
    MessageAbsentThreeAt22();
    assert Distinct(s, 22, 29);
    MessageAbsentThreeAt21();
    assert Distinct(s, 21, 29);
    MessageAbsentThreeAt20();
    assert Distinct(s, 20, 29);
    MessageAbsentThreeAt19();
    assert Distinct(s, 19, 29);
    MessageAbsentThreeAt18();
    assert Distinct(s, 18, 29);
    MessageAbsentThreeAt17();
    assert Distinct(s, 17, 29);
    MessageAbsentThreeAt16();
    assert Distinct(s, 16, 29);
    MessageAbsentThreeAt15();
    assert Distinct(s, 15, 29);
    DistinctSound(s, 15, 29);
  }

  lemma MessageEarlierFrontThree()
    ensures forall j :: 14 <= j < 21 ==> !IsMarker(StreamThree, 14, j)
  {
    var s := StreamThree;
    forall j | 14 <= j < 21 ensures !IsMarker(s, 14, j) {
      if j == 14 {
        Repeat(s, 0, 14, 0, 2);
      } else if j == 15 {
        Repeat(s, 1, 15, 2, 4);
      } else if j == 16 {
        Repeat(s, 2, 16, 2, 4);
      } else if j == 17 {
        Repeat(s, 3, 17, 3, 6);
      } else if j == 18 {
        Repeat(s, 4, 18, 4, 8);
      } else if j == 19 {
        Repeat(s, 5, 19, 5, 7);
      } else {
        Repeat(s, 6, 20, 7, 11);
      }
    }
  }

  lemma MessageEarlierBackThree()
    ensures forall j :: 21 <= j < 29 ==> !IsMarker(StreamThree, 14, j)
  {
    var s := StreamThree;
    forall j | 21 <= j < 29 ensures !IsMarker(s, 14, j) {
      if j == 21 {
        Repeat(s, 7, 21, 7, 11);
      } else if j == 22 {
        Repeat(s, 8, 22, 10, 20);
      } else if j == 23 {
        Repeat(s, 9, 23, 10, 20);
      } else if j == 24 {
        Repeat(s, 10, 24, 10, 20);
      } else if j == 25 {
        Repeat(s, 11, 25, 11, 14);
      } else if j == 26 {
        Repeat(s, 12, 26, 12, 16);
      } else if j == 27 {
        Repeat(s, 13, 27, 13, 22);
      } else {
        Repeat(s, 14, 28, 14, 19);
      }
    }
  }

  lemma MessageExampleThree()
    ensures StartIndex(StreamThree, 14) == Some(29)
  {
    MessageWindowThree();
    MessageEarlierFrontThree();
    MessageEarlierBackThree();
    MarkerAt(StreamThree, 14, 29);
  }
}
