/** `get_most_calories` of test_day01/test_ex01.py: the largest total among
    the elves' groups of calorie counts. */
module Calories {
  import opened Wrappers

  function Sum(xs: seq<int>): int {
    if xs == [] then 0 else xs[0] + Sum(xs[1..])
  }

  /** `max(sum(group) for group in groups)`: the total of some group, and no
      group has a larger total; `None` for no group at all, where `max` raises
      `ValueError`. */
  function GetMostCalories(groups: seq<seq<int>>): (most: Option<int>)
    ensures most.None? <==> groups == []
    ensures most.Some? ==> exists k :: 0 <= k < |groups| && most.value == Sum(groups[k])
    ensures most.Some? ==> forall k :: 0 <= k < |groups| ==> Sum(groups[k]) <= most.value
    decreases |groups|
  {
    if groups == [] then None
    else
      assert forall k :: 1 <= k < |groups| ==> groups[k] == groups[1..][k - 1];
      match GetMostCalories(groups[1..])
      case None => Some(Sum(groups[0]))
      case Some(rest) => if Sum(groups[0]) >= rest then Some(Sum(groups[0])) else Some(rest)
  }

  /** The most any of the five elves of the test carries is 24000 calories. */
  lemma SampleMostCalories()
    ensures GetMostCalories([[1000, 2000, 3000], [4000], [5000, 6000], [7000, 8000, 9000], [10000]]) == Some(24000)
  {
    var groups := [[1000, 2000, 3000], [4000], [5000, 6000], [7000, 8000, 9000], [10000]];
    assert Sum(groups[0]) == 6000 && Sum(groups[1]) == 4000 && Sum(groups[2]) == 11000;
    assert Sum(groups[3]) == 24000 && Sum(groups[4]) == 10000;
  }
}
