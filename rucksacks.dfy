/** test_day03/test_ex05.py: each rucksack holds two compartments of equal
    size, its first and second half; exactly one item type is in both, and
    the answer is the sum of the priorities of those items. */
module Rucksacks {
  import opened Wrappers
  import Items

  /** The first compartment: the first `len // 2` items. */
  function FirstCompartment(rucksack: string): (r: string)
    ensures |r| == |rucksack| / 2
  {
    rucksack[..|rucksack| / 2]
  }

  /** The second compartment: the remaining items. */
  function SecondCompartment(rucksack: string): (r: string)
    ensures FirstCompartment(rucksack) + r == rucksack
  {
    rucksack[|rucksack| / 2..]
  }

  /** The item types in both compartments. */
  function SharedItems(rucksack: string): set<char> {
    set c | c in FirstCompartment(rucksack) && c in SecondCompartment(rucksack)
  }

  /** `get_shared_item`: an item in both compartments; `None` where the
      intersection is empty and `pop` raises. */
  function GetSharedItem(rucksack: string): Option<char> {
    Items.FirstCommon(FirstCompartment(rucksack), [SecondCompartment(rucksack)], 0)
  }

  /** The shared item is in both compartments, and there is none exactly when
      no item type is in both. */
  lemma SharedItemInBoth(rucksack: string)
    ensures var r := GetSharedItem(rucksack);
            r.Some? ==> r.value in FirstCompartment(rucksack) && r.value in SecondCompartment(rucksack)
    ensures GetSharedItem(rucksack).None? <==> SharedItems(rucksack) == {}
  {
    var first := FirstCompartment(rucksack);
    var second := SecondCompartment(rucksack);
    Items.FirstCommonInCommon(first, [second]);
    assert [second][0] == second;
    assert SharedItems(rucksack) == Items.Common(first, [second]);
  }

  /** When exactly one item type is in both compartments, that is the shared
      item. */
  lemma SharedItemIsTheOnlyOne(rucksack: string, c: char)
    requires SharedItems(rucksack) == {c}
    ensures GetSharedItem(rucksack) == Some(c)
  {
    var r := GetSharedItem(rucksack);
    SharedItemInBoth(rucksack);
    assert c in SharedItems(rucksack);
    assert r.value in SharedItems(rucksack);
  }

  /** A rucksack made of two halves of equal size has those halves as its
      compartments. */
  lemma SharedItemOfHalves(first: string, second: string)
    requires |first| == |second|
    ensures GetSharedItem(first + second) == Items.FirstCommon(first, [second], 0)
  {
    var rucksack := first + second;
    assert FirstCompartment(rucksack) == first;
    assert SecondCompartment(rucksack) == second;
  }

  /** The shared item of a rucksack of two halves is the first item of the
      first half found in the second. */
  lemma SharedItemFound(first: string, second: string, k: nat)
    requires |first| == |second| && k < |first| && first[k] in second
    requires forall j :: 0 <= j < k ==> first[j] !in second
    ensures GetSharedItem(first + second) == Some(first[k])
  {
    SharedItemOfHalves(first, second);
    assert [second][0] == second;
    Items.FirstCommonAt(first, [second], 0, k);
  }

  /** The priority of the shared item (`get_item_priority`, in the form
      `Items.PriorityOfItem` proves equal to it); `None` where there is no
      shared item or it is not a letter. */
  function RucksackPriority(rucksack: string): (r: Option<nat>)
    ensures r.Some? ==> 1 <= r.value <= 52
  {
    match GetSharedItem(rucksack)
    case None => None
    case Some(c) => Items.Priority(c)
  }

  /** The priority of every rucksack, as the generator yields them. */
  function Priorities(rucksacks: seq<string>): (ps: seq<Option<nat>>)
    ensures |ps| == |rucksacks| && Items.InRange(ps)
    ensures forall k :: 0 <= k < |rucksacks| ==> ps[k] == RucksackPriority(rucksacks[k])
  {
    seq(|rucksacks|, k requires 0 <= k < |rucksacks| => RucksackPriority(rucksacks[k]))
  }

  /** `get_priorities_sum`; `None` where some rucksack raises. */
  function GetPrioritiesSum(rucksacks: seq<string>): (r: Option<nat>)
    ensures r.Some? <==> forall k :: 0 <= k < |rucksacks| ==> RucksackPriority(rucksacks[k]).Some?
    ensures r.Some? ==> |rucksacks| <= r.value <= 52 * |rucksacks|
  {
    Items.SumAll(Priorities(rucksacks))
  }

  /** The six rucksacks of the sample. */
  const RucksackOne: string := "vJrwpWtwJgWrhcsFMMfFFhFp"
  const RucksackTwo: string := "jqHRNqRjqzjGDLGLrsFMfFZSrLrFZsSL"
  const RucksackThree: string := "PmmdzqPrVvPwwTWBwg"
  const RucksackFour: string := "wMqvLMZHhHMvwLHjbvcjnnSBnvTQFn"
  const RucksackFive: string := "ttgJtRGJQctTZtZT"
  const RucksackSix: string := "CrZsJsPPZsGzwwsLwLmpwMDw"

  /** v, early in the first compartment of rucksack one, is not
      in the second. */
  lemma AbsentOneAt0()
    ensures 'v' !in "hcsFMMfFFhFp"
  {
  }

  /** J, early in the first compartment of rucksack one, is not
      in the second. */
  lemma AbsentOneAt1()
    ensures 'J' !in "hcsFMMfFFhFp"
  {
  }

  /** r, early in the first compartment of rucksack one, is not
      in the second. */
  lemma AbsentOneAt2()
    ensures 'r' !in "hcsFMMfFFhFp"
  {
  }

  /** w, early in the first compartment of rucksack one, is not
      in the second. */
  lemma AbsentOneAt3()
    ensures 'w' !in "hcsFMMfFFhFp"
  {
  }

  /** No item before position 4 of the first compartment of rucksack
      one is in the second. */
  lemma EarlierOne()
    ensures var first, second := "vJrwpWtwJgWr", "hcsFMMfFFhFp";
            forall j :: 0 <= j < 4 ==> first[j] !in second
  {
    var first, second := "vJrwpWtwJgWr", "hcsFMMfFFhFp";
    AbsentOneAt0();
    AbsentOneAt1();
    AbsentOneAt2();
    AbsentOneAt3();
    forall j | 0 <= j < 4
      ensures first[j] !in second
    {
      if j == 0 {
        assert first[0] == 'v';
      } else if j == 1 {
        assert first[1] == 'J';
      } else if j == 2 {
        assert first[2] == 'r';
      } else if j == 3 {
        assert first[3] == 'w';
      }
    }
  }

  /** Rucksack one of the sample shares p. */
  lemma SharedItemOne()
    ensures GetSharedItem(RucksackOne) == Some('p')
  {
    var first := "vJrwpWtwJgWr";
    var second := "hcsFMMfFFhFp";
    assert first + second == RucksackOne;
    assert first[4] == 'p' && 'p' in second;
    EarlierOne();
    SharedItemFound(first, second, 4);
  }

  /** j, early in the first compartment of rucksack two, is not
      in the second. */
  lemma AbsentTwoAt0()
    ensures 'j' !in "rsFMfFZSrLrFZsSL"
  {
  }

  /** q, early in the first compartment of rucksack two, is not
      in the second. */
  lemma AbsentTwoAt1()
    ensures 'q' !in "rsFMfFZSrLrFZsSL"
  {
  }

  /** H, early in the first compartment of rucksack two, is not
      in the second. */
  lemma AbsentTwoAt2()
    ensures 'H' !in "rsFMfFZSrLrFZsSL"
  {
  }

  /** R, early in the first compartment of rucksack two, is not
      in the second. */
  lemma AbsentTwoAt3()
    ensures 'R' !in "rsFMfFZSrLrFZsSL"
  {
  }

  /** N, early in the first compartment of rucksack two, is not
      in the second. */
  lemma AbsentTwoAt4()
    ensures 'N' !in "rsFMfFZSrLrFZsSL"
  {
  }

  /** z, early in the first compartment of rucksack two, is not
      in the second. */
  lemma AbsentTwoAt9()
    ensures 'z' !in "rsFMfFZSrLrFZsSL"
  {
  }

  /** G, early in the first compartment of rucksack two, is not
      in the second. */
  lemma AbsentTwoAt11()
    ensures 'G' !in "rsFMfFZSrLrFZsSL"
  {
  }

  /** D, early in the first compartment of rucksack two, is not
      in the second. */
  lemma AbsentTwoAt12()
    ensures 'D' !in "rsFMfFZSrLrFZsSL"
  {
  }

  /** No item before position 13 of the first compartment of rucksack
      two is in the second. */
  lemma EarlierTwo()
    ensures var first, second := "jqHRNqRjqzjGDLGL", "rsFMfFZSrLrFZsSL";
            forall j :: 0 <= j < 13 ==> first[j] !in second
  {
    var first, second := "jqHRNqRjqzjGDLGL", "rsFMfFZSrLrFZsSL";
    AbsentTwoAt0();
    AbsentTwoAt1();
    AbsentTwoAt2();
    AbsentTwoAt3();
    AbsentTwoAt4();
    AbsentTwoAt9();
    AbsentTwoAt11();
    AbsentTwoAt12();
    forall j | 0 <= j < 13
      ensures first[j] !in second
    {
      if j == 0 {
        assert first[0] == 'j';
      } else if j == 1 {
        assert first[1] == 'q';
      } else if j == 2 {
        assert first[2] == 'H';
      } else if j == 3 {
        assert first[3] == 'R';
      } else if j == 4 {
        assert first[4] == 'N';
      } else if j == 5 {
        assert first[5] == 'q';
      } else if j == 6 {
        assert first[6] == 'R';
      } else if j == 7 {
        assert first[7] == 'j';
      } else if j == 8 {
        assert first[8] == 'q';
      } else if j == 9 {
        assert first[9] == 'z';
      } else if j == 10 {
        assert first[10] == 'j';
      } else if j == 11 {
        assert first[11] == 'G';
      } else if j == 12 {
        assert first[12] == 'D';
      }
    }
  }

  /** Rucksack two of the sample shares L. */
  lemma SharedItemTwo()
    ensures GetSharedItem(RucksackTwo) == Some('L')
  {
    var first := "jqHRNqRjqzjGDLGL";
    var second := "rsFMfFZSrLrFZsSL";
    assert first + second == RucksackTwo;
    assert first[13] == 'L' && 'L' in second;
    EarlierTwo();
    SharedItemFound(first, second, 13);
  }

  /** Rucksack three of the sample shares P. */
  lemma SharedItemThree()
    ensures GetSharedItem(RucksackThree) == Some('P')
  {
    var first := "PmmdzqPrV";
    var second := "vPwwTWBwg";
    assert first + second == RucksackThree;
    assert first[0] == 'P' && 'P' in second;
    SharedItemFound(first, second, 0);
  }

  /** w, early in the first compartment of rucksack four, is not
      in the second. */
  lemma AbsentFourAt0()
    ensures 'w' !in "jbvcjnnSBnvTQFn"
  {
  }

  /** M, early in the first compartment of rucksack four, is not
      in the second. */
  lemma AbsentFourAt1()
    ensures 'M' !in "jbvcjnnSBnvTQFn"
  {
  }

  /** q, early in the first compartment of rucksack four, is not
      in the second. */
  lemma AbsentFourAt2()
    ensures 'q' !in "jbvcjnnSBnvTQFn"
  {
  }

  /** No item before position 3 of the first compartment of rucksack
      four is in the second. */
  lemma EarlierFour()
    ensures var first, second := "wMqvLMZHhHMvwLH", "jbvcjnnSBnvTQFn";
            forall j :: 0 <= j < 3 ==> first[j] !in second
  {
    var first, second := "wMqvLMZHhHMvwLH", "jbvcjnnSBnvTQFn";
    AbsentFourAt0();
    AbsentFourAt1();
    AbsentFourAt2();
    forall j | 0 <= j < 3
      ensures first[j] !in second
    {
      if j == 0 {
        assert first[0] == 'w';
      } else if j == 1 {
        assert first[1] == 'M';
      } else if j == 2 {
        assert first[2] == 'q';
      }
    }
  }

  /** Rucksack four of the sample shares v. */
  lemma SharedItemFour()
    ensures GetSharedItem(RucksackFour) == Some('v')
  {
    var first := "wMqvLMZHhHMvwLH";
    var second := "jbvcjnnSBnvTQFn";
    assert first + second == RucksackFour;
    assert first[3] == 'v' && 'v' in second;
    EarlierFour();
    SharedItemFound(first, second, 3);
  }

  /** Rucksack five of the sample shares t. */
  lemma SharedItemFive()
    ensures GetSharedItem(RucksackFive) == Some('t')
  {
    var first := "ttgJtRGJ";
    var second := "QctTZtZT";
    assert first + second == RucksackFive;
    assert first[0] == 't' && 't' in second;
    SharedItemFound(first, second, 0);
  }

  /** C, early in the first compartment of rucksack six, is not
      in the second. */
  lemma AbsentSixAt0()
    ensures 'C' !in "wwsLwLmpwMDw"
  {
  }

  /** r, early in the first compartment of rucksack six, is not
      in the second. */
  lemma AbsentSixAt1()
    ensures 'r' !in "wwsLwLmpwMDw"
  {
  }

  /** Z, early in the first compartment of rucksack six, is not
      in the second. */
  lemma AbsentSixAt2()
    ensures 'Z' !in "wwsLwLmpwMDw"
  {
  }

  /** No item before position 3 of the first compartment of rucksack
      six is in the second. */
  lemma EarlierSix()
    ensures var first, second := "CrZsJsPPZsGz", "wwsLwLmpwMDw";
            forall j :: 0 <= j < 3 ==> first[j] !in second
  {
    var first, second := "CrZsJsPPZsGz", "wwsLwLmpwMDw";
    AbsentSixAt0();
    AbsentSixAt1();
    AbsentSixAt2();
    forall j | 0 <= j < 3
      ensures first[j] !in second
    {
      if j == 0 {
        assert first[0] == 'C';
      } else if j == 1 {
        assert first[1] == 'r';
      } else if j == 2 {
        assert first[2] == 'Z';
      }
    }
  }

  /** Rucksack six of the sample shares s. */
  lemma SharedItemSix()
    ensures GetSharedItem(RucksackSix) == Some('s')
  {
    var first := "CrZsJsPPZsGz";
    var second := "wwsLwLmpwMDw";
    assert first + second == RucksackSix;
    assert first[3] == 's' && 's' in second;
    EarlierSix();
    SharedItemFound(first, second, 3);
  }

  lemma PriorityOne()
    ensures RucksackPriority(RucksackOne) == Some(16)
  {
    SharedItemOne();
  }

  lemma PriorityTwo()
    ensures RucksackPriority(RucksackTwo) == Some(38)
  {
    SharedItemTwo();
  }

  lemma PriorityThree()
    ensures RucksackPriority(RucksackThree) == Some(42)
  {
    SharedItemThree();
  }

  lemma PriorityFour()
    ensures RucksackPriority(RucksackFour) == Some(22)
  {
    SharedItemFour();
  }

  lemma PriorityFive()
    ensures RucksackPriority(RucksackFive) == Some(20)
  {
    SharedItemFive();
  }

  lemma PrioritySix()
    ensures RucksackPriority(RucksackSix) == Some(19)
  {
    SharedItemSix();
  }

  /** When every rucksack has a priority, the answer is the sum of them. */
  lemma PrioritiesSumOf(rucksacks: seq<string>, priorities: seq<nat>)
    requires |rucksacks| == |priorities|
    requires forall k :: 0 <= k < |rucksacks| ==> RucksackPriority(rucksacks[k]) == Some(priorities[k])
    ensures GetPrioritiesSum(rucksacks) == Some(Items.Total(priorities))
  {
    Items.SumAllOfValues(Priorities(rucksacks), priorities);
  }

  /** The priorities of six rucksacks, one by one. */
  lemma PrioritiesOfSix(r0: string, r1: string, r2: string, r3: string, r4: string, r5: string)
    ensures Priorities([r0, r1, r2, r3, r4, r5])
         == [RucksackPriority(r0), RucksackPriority(r1), RucksackPriority(r2),
             RucksackPriority(r3), RucksackPriority(r4), RucksackPriority(r5)]
  {
  }

  /** The sum of the priorities of the sample is 157. */
  lemma SamplePrioritiesSum()
    ensures GetPrioritiesSum([RucksackOne, RucksackTwo, RucksackThree, RucksackFour, RucksackFive, RucksackSix]) == Some(157)
  {
    PriorityOne();
    PriorityTwo();
    PriorityThree();
    PriorityFour();
    PriorityFive();
    PrioritySix();
    PrioritiesOfSix(RucksackOne, RucksackTwo, RucksackThree, RucksackFour, RucksackFive, RucksackSix);
    Items.SumOfSix(16, 38, 42, 22, 20, 19);
  }
}
