/** test_day03/test_ex06.py: the rucksacks come in groups of three, the badge
    of a group is the one item type all three carry, and the answer is the
    sum of the priorities of the badges. */
module RucksackGroups {
  import opened Wrappers
  import Items

  /** The item types carried by every rucksack of `rucksacks`. */
  function SharedItems(rucksacks: seq<string>): set<char> {
    if rucksacks == [] then {} else Items.Common(rucksacks[0], rucksacks[1..])
  }

  /** `get_shared_item`: an item of the intersection of the rucksacks' sets;
      `None` where there is no rucksack (`set.intersection` needs one) or the
      intersection is empty and `pop` raises. */
  function GetSharedItem(rucksacks: seq<string>): Option<char> {
    if rucksacks == [] then None else Items.FirstCommon(rucksacks[0], rucksacks[1..], 0)
  }

  /** The shared item is carried by every rucksack, and there is none exactly
      when no item type is carried by all of them. */
  lemma SharedItemInAll(rucksacks: seq<string>)
    ensures var r := GetSharedItem(rucksacks);
            r.Some? ==> forall k :: 0 <= k < |rucksacks| ==> r.value in rucksacks[k]
    ensures GetSharedItem(rucksacks).None? <==> SharedItems(rucksacks) == {}
  {
    if rucksacks != [] {
      var r := GetSharedItem(rucksacks);
      Items.FirstCommonInCommon(rucksacks[0], rucksacks[1..]);
      if r.Some? {
        forall k | 0 <= k < |rucksacks|
          ensures r.value in rucksacks[k]
        {
          if k > 0 {
            assert rucksacks[1..][k - 1] == rucksacks[k];
          }
        }
      }
    }
  }

  /** When exactly one item type is carried by all, that is the shared item,
      whichever one `set.pop` would return. */
  lemma SharedItemIsTheOnlyOne(rucksacks: seq<string>, c: char)
    requires SharedItems(rucksacks) == {c}
    ensures GetSharedItem(rucksacks) == Some(c)
  {
    Items.FirstCommonOfSingleton(rucksacks[0], rucksacks[1..], c);
  }

  /** `grouper(ruckpacks, 3)`: consecutive groups of three; `None` where the
      count is not a multiple of three, since the last group is padded with
      `None` and building its set raises. */
  function Groups(rucksacks: seq<string>): (r: Option<seq<seq<string>>>)
    ensures r.Some? <==> |rucksacks| % 3 == 0
    ensures r.Some? ==> |r.value| == |rucksacks| / 3
    ensures r.Some? ==> forall i :: 0 <= i < |r.value| ==> r.value[i] == rucksacks[3 * i..3 * i + 3]
    decreases |rucksacks|
  {
    if rucksacks == [] then Some([])
    else if |rucksacks| < 3 then None
    else
      match Groups(rucksacks[3..])
      case None => None
      case Some(rest) =>
        assert forall i :: 0 <= i < |rest| ==> rest[i] == rucksacks[3 * (i + 1)..3 * (i + 1) + 3];
        Some([rucksacks[..3]] + rest)
  }

  function Concat(groups: seq<seq<string>>): seq<string> {
    if groups == [] then [] else groups[0] + Concat(groups[1..])
  }

  /** Grouping loses and reorders nothing: the groups, joined, are the
      rucksacks. */
  lemma {:induction false} GroupsConcat(rucksacks: seq<string>)
    requires |rucksacks| % 3 == 0
    ensures Concat(Groups(rucksacks).value) == rucksacks
    decreases |rucksacks|
  {
    if rucksacks != [] {
      GroupsConcat(rucksacks[3..]);
      var groups := Groups(rucksacks).value;
      assert groups[0] == rucksacks[..3];
      assert groups[1..] == Groups(rucksacks[3..]).value;
      assert rucksacks[..3] + rucksacks[3..] == rucksacks;
    }
  }

  /** The priority of a group's badge, or `None` where it has none or it is
      not a letter (`Items.Priority` is `get_item_priority`, by
      `Items.PriorityOfItem`). */
  function GroupPriority(group: seq<string>): (r: Option<nat>)
    ensures r.Some? ==> 1 <= r.value <= 52
  {
    match GetSharedItem(group)
    case None => None
    case Some(c) => Items.Priority(c)
  }

  /** The badge priority of every group, as the generator yields them. */
  function GroupPriorities(groups: seq<seq<string>>): (ps: seq<Option<nat>>)
    ensures |ps| == |groups| && Items.InRange(ps)
    ensures forall k :: 0 <= k < |groups| ==> ps[k] == GroupPriority(groups[k])
  {
    seq(|groups|, k requires 0 <= k < |groups| => GroupPriority(groups[k]))
  }

  /** The sum over the groups; `None` where one of them raises. */
  function GroupsSum(groups: seq<seq<string>>): (r: Option<nat>)
    ensures r.Some? <==> forall k :: 0 <= k < |groups| ==> GroupPriority(groups[k]).Some?
    ensures r.Some? ==> |groups| <= r.value <= 52 * |groups|
  {
    Items.SumAll(GroupPriorities(groups))
  }

  /** `get_priorities_sum`: the sum of the badge priorities of the groups of
      three; `None` where the grouping or a group raises. */
  function GetPrioritiesSum(rucksacks: seq<string>): (r: Option<nat>)
    ensures r.Some? ==> |rucksacks| % 3 == 0
    ensures r.Some? ==> |rucksacks| / 3 <= r.value <= 52 * (|rucksacks| / 3)
  {
    match Groups(rucksacks)
    case None => None
    case Some(groups) => GroupsSum(groups)
  }

  /** The third of the rucksacks starting at rucksack `3 * k`. */
  function Group(rucksacks: seq<string>, k: nat): seq<string>
    requires 3 * k + 3 <= |rucksacks|
  {
    rucksacks[3 * k..3 * k + 3]
  }

  /** There is an answer exactly when the rucksacks split into groups of
      three and every group has a badge with a priority. */
  lemma PrioritiesSumDefined(rucksacks: seq<string>)
    ensures GetPrioritiesSum(rucksacks).Some?
        <==> |rucksacks| % 3 == 0 &&
             forall k: nat :: k < |rucksacks| / 3 ==> GroupPriority(Group(rucksacks, k)).Some?
  {
    if |rucksacks| % 3 == 0 {
      var groups := Groups(rucksacks).value;
      assert forall k: nat :: k < |groups| ==> groups[k] == Group(rucksacks, k);
    }
  }

  /** When every group of three has a badge, with priority `priorities[k]`
      for group `k`, the answer is the sum of those priorities. */
  lemma PrioritiesSumOf(rucksacks: seq<string>, priorities: seq<nat>)
    requires |rucksacks| == 3 * |priorities|
    requires forall k: nat :: k < |priorities| ==> GroupPriority(Group(rucksacks, k)) == Some(priorities[k])
    ensures GetPrioritiesSum(rucksacks) == Some(Items.Total(priorities))
  {
    assert |rucksacks| % 3 == 0;
    var groups := Groups(rucksacks).value;
    GroupPrioritiesAre(rucksacks, groups, priorities);
    Items.SumAllOfValues(GroupPriorities(groups), priorities);
  }

  /** The badge priorities of the groups, one by one. */
  lemma GroupPrioritiesAre(rucksacks: seq<string>, groups: seq<seq<string>>, priorities: seq<nat>)
    requires Groups(rucksacks) == Some(groups) && |rucksacks| == 3 * |priorities|
    requires forall k: nat :: k < |priorities| ==> GroupPriority(Group(rucksacks, k)) == Some(priorities[k])
    ensures forall k :: 0 <= k < |priorities| ==> GroupPriorities(groups)[k] == Some(priorities[k])
  {
    forall k | 0 <= k < |priorities|
      ensures GroupPriorities(groups)[k] == Some(priorities[k])
    {
      assert groups[k] == Group(rucksacks, k);
    }
  }

  /** Rucksacks of letters, in groups of three that each have an item type
      in common, always have an answer. */
  lemma LetterGroupsHaveSum(rucksacks: seq<string>)
    requires |rucksacks| % 3 == 0
    requires forall i, j :: 0 <= i < |rucksacks| && 0 <= j < |rucksacks[i]| ==>
               Items.IsLower(rucksacks[i][j]) || Items.IsUpper(rucksacks[i][j])
    requires forall k: nat :: k < |rucksacks| / 3 ==> SharedItems(Group(rucksacks, k)) != {}
    ensures GetPrioritiesSum(rucksacks).Some?
  {
    forall k: nat | k < |rucksacks| / 3
      ensures GroupPriority(Group(rucksacks, k)).Some?
    {
      var group := Group(rucksacks, k);
      SharedItemInAll(group);
      var c := GetSharedItem(group).value;
      assert group[0] == rucksacks[3 * k];
      assert c in rucksacks[3 * k];
    }
    PrioritiesSumDefined(rucksacks);
  }

  /** A group of three whose first rucksack holds, at position `k` and at no
      earlier one, an item the other two also carry has that item as badge. */
  lemma SharedItemFound(a: string, b: string, c: string, k: nat)
    requires k < |a| && a[k] in b && a[k] in c
    requires forall j :: 0 <= j < k ==> a[j] !in b || a[j] !in c
    ensures GetSharedItem([a, b, c]) == Some(a[k])
  {
    var group := [a, b, c];
    assert group[0] == a && group[1..] == [b, c];
    assert [b, c][0] == b && [b, c][1] == c;
    Items.FirstCommonAt(a, [b, c], 0, k);
  }

  const RucksackOne: string := "vJrwpWtwJgWrhcsFMMfFFhFp"
  const RucksackTwo: string := "jqHRNqRjqzjGDLGLrsFMfFZSrLrFZsSL"
  const RucksackThree: string := "PmmdzqPrVvPwwTWBwg"
  const RucksackFour: string := "wMqvLMZHhHMvwLHjbvcjnnSBnvTQFn"
  const RucksackFive: string := "ttgJtRGJQctTZtZT"
  const RucksackSix: string := "CrZsJsPPZsGzwwsLwLmpwMDw"

  lemma VAbsentFromTwo()
    ensures 'v' !in RucksackTwo
  {
  }

  lemma JAbsentFromTwo()
    ensures 'J' !in RucksackTwo
  {
  }

  /** The first group of the sample has badge r. */
  lemma SampleSharedItem()
    ensures GetSharedItem([RucksackOne, RucksackTwo, RucksackThree]) == Some('r')
  {
    VAbsentFromTwo();
    JAbsentFromTwo();
    var a := RucksackOne;
    assert a[0] == 'v' && a[1] == 'J' && a[2] == 'r';
    assert RucksackTwo[16] == 'r' && RucksackThree[7] == 'r';
    forall j | 0 <= j < 2
      ensures a[j] !in RucksackTwo
    {
      if j == 0 {
      } else {
      }
    }
    SharedItemFound(a, RucksackTwo, RucksackThree, 2);
  }

  lemma wAbsentFromFive()
    ensures 'w' !in RucksackFive
  {
  }

  lemma MAbsentFromFive()
    ensures 'M' !in RucksackFive
  {
  }

  lemma qAbsentFromFive()
    ensures 'q' !in RucksackFive
  {
  }

  lemma vAbsentFromFive()
    ensures 'v' !in RucksackFive
  {
  }

  lemma LAbsentFromFive()
    ensures 'L' !in RucksackFive
  {
  }


  /** The second group of the sample has badge Z. */
  lemma SecondSharedItem()
    ensures GetSharedItem([RucksackFour, RucksackFive, RucksackSix]) == Some('Z')
  {
    wAbsentFromFive();
    MAbsentFromFive();
    qAbsentFromFive();
    vAbsentFromFive();
    LAbsentFromFive();
    var a := RucksackFour;
    assert a[0] == 'w' && a[1] == 'M' && a[2] == 'q' && a[3] == 'v' && a[4] == 'L' && a[5] == 'M' && a[6] == 'Z';
    assert RucksackFive[12] == 'Z' && RucksackSix[2] == 'Z';
    forall j | 0 <= j < 6
      ensures a[j] !in RucksackFive
    {
      if j == 0 {
      } else if j == 1 {
      } else if j == 2 {
      } else if j == 3 {
      } else if j == 4 {
      } else {
      }
    }
    SharedItemFound(a, RucksackFive, RucksackSix, 6);
  }

  /** Six rucksacks whose groups have badges of priorities 18 and 52 sum to
      70. */
  lemma PrioritiesSumOfTwoGroups(r1: string, r2: string, r3: string, r4: string, r5: string, r6: string)
    requires GroupPriority([r1, r2, r3]) == Some(18) && GroupPriority([r4, r5, r6]) == Some(52)
    ensures GetPrioritiesSum([r1, r2, r3, r4, r5, r6]) == Some(70)
  {
    var rucksacks := [r1, r2, r3, r4, r5, r6];
    var groups := Groups(rucksacks).value;
    assert groups[0] == [r1, r2, r3] && groups[1] == [r4, r5, r6];
    assert groups == [[r1, r2, r3], [r4, r5, r6]];
    var ps := GroupPriorities(groups);
    assert ps == [Some(18), Some(52)];
    assert Items.SumAll(ps[1..]) == Some(52);
  }

  /** The sum of the badge priorities of the sample is 70. */
  lemma SamplePrioritiesSum()
    ensures GetPrioritiesSum([RucksackOne, RucksackTwo, RucksackThree, RucksackFour, RucksackFive, RucksackSix]) == Some(70)
  {
    SampleSharedItem();
    SecondSharedItem();
    PrioritiesSumOfTwoGroups(RucksackOne, RucksackTwo, RucksackThree, RucksackFour, RucksackFive, RucksackSix);
  }
}
